/**
  Reading a whitelist line: CN extraction, longest prefix, longest role
  (reconciliation_configmap.go), and recovering a role from a RoleBinding's name
  (reconciliation_helpers.go).

  The operator sorts prefixes and role names by length with an in-place exchange sort
  and scans Go maps, whose order is arbitrary. The reference form below looks at the
  string instead: it walks over its dashes.
 */
module Whitelist {
  import opened Strings
  import opened Sorting

  type RoleMapping = map<string, string>

  // ---------- the reference form ----------

  /** The tail after the first dash, at or after `from`, whose tail is in `roles`. */
  function FirstTail(s: string, roles: set<string>, from: nat): (r: Option<string>)
    requires from <= |s|
    decreases |s| - from
  {
    if from == |s| then None
    else if s[from] == '-' && s[from + 1..] in roles then Some(s[from + 1..])
    else FirstTail(s, roles, from + 1)
  }

  function LongestRole(rest: string, roles: set<string>): Option<string> {
    FirstTail(rest, roles - {""}, 0)
  }

  datatype Parsed = Parsed(namespace: string, role: string, prefix: string)

  /** The split of `cn` under one prefix. */
  function ParseUnder(cn: string, prefix: string, mapping: RoleMapping): Option<Parsed> {
    if !(prefix + "-" <= cn) then None
    else
      var rest := cn[|prefix| + 1..];
      match LongestRole(rest, mapping.Keys)
      case None => None
      case Some(role) =>
        if rest == "-" + role then None
        else Some(Parsed(TrimSuffix(rest, "-" + role), role, prefix))
  }

  /** The last dash before `to` that ends a prefix under which `cn` parses decides. */
  function ParseBefore(cn: string, prefixes: set<string>, mapping: RoleMapping, to: nat): Option<Parsed>
    requires to <= |cn|
  {
    if to == 0 then None
    else if cn[to - 1] == '-' && cn[..to - 1] in prefixes && ParseUnder(cn, cn[..to - 1], mapping).Some?
    then ParseUnder(cn, cn[..to - 1], mapping)
    else ParseBefore(cn, prefixes, mapping, to - 1)
  }

  function Parse(cn: string, prefixes: seq<string>, mapping: RoleMapping): Option<Parsed> {
    ParseBefore(cn, Elements(prefixes), mapping, |cn|)
  }

  // ---------- what the reference form means ----------

  ghost predicate Ends(s: string, role: string) {
    HasSuffix(s, "-" + role)
  }

  lemma EndsTail(s: string, from: nat, role: string)
    requires Ends(s, role) && |role| + 1 + from == |s|
    ensures s[from] == '-' && s[from + 1..] == role
  {
    var tail := "-" + role;
    assert s[from..] == tail;
    assert tail[0] == '-' && tail[1..] == role;
    assert s[from] == s[from..][0];
    assert s[from + 1..] == s[from..][1..];
  }

  lemma EndsAt(s: string, role: string)
    ensures Ends(s, role) <==> exists i :: 0 <= i < |s| && s[i] == '-' && s[i + 1..] == role
  {
    if Ends(s, role) {
      var i := |s| - |role| - 1;
      EndsTail(s, i, role);
    }
    if i :| 0 <= i < |s| && s[i] == '-' && s[i + 1..] == role {
      assert s[|s| - |role| - 1..] == "-" + role;
    }
  }

  lemma {:induction false} FirstTailIsLongest(s: string, roles: set<string>, from: nat)
    requires from <= |s|
    ensures var r := FirstTail(s, roles, from);
            && (r.Some? ==> r.value in roles && Ends(s, r.value) && |r.value| < |s| - from)
            && (forall x :: x in roles && Ends(s, x) && |x| < |s| - from ==> r.Some? && |x| <= |r.value|)
    decreases |s| - from
  {
    if from < |s| {
      var tail := s[from + 1..];
      if s[from] == '-' && tail in roles {
        EndsAt(s, tail);
        assert 0 <= from < |s| && s[from] == '-' && s[from + 1..] == tail;
      } else {
        FirstTailIsLongest(s, roles, from + 1);
        forall x | Ends(s, x) && |x| == |tail|
          ensures s[from] == '-' && tail == x
        {
          EndsTail(s, from, x);
        }
      }
    }
  }

  /** Two tails of the same length are the same tail. */
  lemma EndsDetermined(s: string, x: string, y: string)
    requires Ends(s, x) && Ends(s, y) && |x| == |y|
    ensures x == y
  {
    assert s[|s| - |x| - 1..] == "-" + x;
    assert s[|s| - |y| - 1..] == "-" + y;
    assert x == ("-" + x)[1..] == ("-" + y)[1..] == y;
  }

  /** A role that ends `rest` and that no longer role of the mapping beats is the one chosen. */
  lemma LongestRoleUnique(rest: string, roles: set<string>, role: string)
    requires role in roles && role != "" && Ends(rest, role)
    requires forall x :: x in roles && Ends(rest, x) ==> |x| <= |role|
    ensures LongestRole(rest, roles) == Some(role)
  {
    FirstTailIsLongest(rest, roles - {""}, 0);
    EndsDetermined(rest, role, LongestRole(rest, roles).value);
  }

  lemma LongestRoleNone(rest: string, roles: set<string>)
    requires forall x :: x in roles && x != "" ==> !Ends(rest, x)
    ensures LongestRole(rest, roles) == None
  {
    FirstTailIsLongest(rest, roles - {""}, 0);
  }

  lemma ParseUnderSpec(cn: string, prefix: string, mapping: RoleMapping)
    ensures var r := ParseUnder(cn, prefix, mapping);
            r.Some? ==>
              && cn == prefix + "-" + r.value.namespace + "-" + r.value.role
              && r.value.prefix == prefix
              && r.value.namespace != "" && r.value.role != "" && r.value.role in mapping
              && (forall x :: x in mapping && Ends(cn[|prefix| + 1..], x) ==> |x| <= |r.value.role|)
  {
    var r := ParseUnder(cn, prefix, mapping);
    if r.Some? {
      var rest := cn[|prefix| + 1..];
      FirstTailIsLongest(rest, mapping.Keys - {""}, 0);
      SuffixSplits(rest, "-" + r.value.role);
      assert cn == (prefix + "-") + rest;
      assert r.value.namespace + ("-" + r.value.role) == rest;
    }
  }

  lemma PrefixDash(cn: string, p: string)
    requires p + "-" <= cn
    ensures |p| < |cn| && cn[|p|] == '-' && cn[..|p|] == p
  {
    assert cn[..|p| + 1] == p + "-";
  }

  lemma {:induction false} ParseBeforeIsLongest(cn: string, prefixes: set<string>, mapping: RoleMapping, to: nat)
    requires to <= |cn|
    ensures var r := ParseBefore(cn, prefixes, mapping, to);
            && (r.Some? ==> r.value.prefix in prefixes && r == ParseUnder(cn, r.value.prefix, mapping))
            && (forall p :: p in prefixes && |p| < to && ParseUnder(cn, p, mapping).Some?
                  ==> r.Some? && |p| <= |r.value.prefix|)
  {
    hide ParseUnder, Ends;
    if to == 0 {
    } else {
      ParseBeforeIsLongest(cn, prefixes, mapping, to - 1);
      var here := cn[..to - 1];
      forall p | p in prefixes && |p| == to - 1 && ParseUnder(cn, p, mapping).Some?
        ensures cn[to - 1] == '-' && here == p
      {
        ParsesIsPrefixed(cn, p, mapping);
        PrefixDash(cn, p);
      }
      ParsesIsPrefixed(cn, here, mapping);
    }
  }

  lemma ParsesIsPrefixed(cn: string, prefix: string, mapping: RoleMapping)
    ensures var r := ParseUnder(cn, prefix, mapping);
            r.Some? ==> prefix + "-" <= cn && |prefix| < |cn| && r.value.prefix == prefix
  {}

  /**
    When a CN parses under a prefix: it starts with it, what is left ends with some role,
    and no role takes all that is left but its dash. A longest role that does leaves no
    namespace, and the parse fails although a shorter role might have left one.
   */
  ghost predicate Parses(cn: string, prefix: string, mapping: RoleMapping) {
    && prefix + "-" <= cn
    && (exists x :: x in mapping && x != "" && Ends(cn[|prefix| + 1..], x))
    && ("-" <= cn[|prefix| + 1..] ==> cn[|prefix| + 2..] !in mapping || cn[|prefix| + 2..] == "")
  }

  lemma ParsesExactly(cn: string, prefix: string, mapping: RoleMapping)
    ensures ParseUnder(cn, prefix, mapping).Some? <==> Parses(cn, prefix, mapping)
  {
    if prefix + "-" <= cn {
      var rest := cn[|prefix| + 1..];
      FirstTailIsLongest(rest, mapping.Keys - {""}, 0);
      if "-" <= rest {
        assert cn[|prefix| + 2..] == rest[1..];
        assert rest == "-" + rest[1..];
        if rest[1..] in mapping && rest[1..] != "" {
          assert Ends(rest, rest[1..]);
          EndsDetermined(rest, rest[1..], LongestRole(rest, mapping.Keys).value);
        }
      }
    }
  }

  /**
    A CN parses exactly if it does under some configured prefix, and then it is split into
    prefix, namespace and role. The prefix is the longest under which it parses at all,
    the role the longest role key the rest ends with; no order of prefixes or roles counts.
   */
  lemma ParseSpec(cn: string, prefixes: seq<string>, mapping: RoleMapping)
    ensures var r := Parse(cn, prefixes, mapping);
            && (r.Some? <==> exists p :: p in prefixes && Parses(cn, p, mapping))
            && (r.Some? ==> forall p :: p in prefixes && Parses(cn, p, mapping) ==> |p| <= |r.value.prefix|)
            && (r.Some? ==>
                  && cn == r.value.prefix + "-" + r.value.namespace + "-" + r.value.role
                  && r.value.namespace != "" && r.value.role != ""
                  && r.value.prefix in prefixes && r.value.role in mapping
                  && (forall x :: x in mapping && Ends(cn[|r.value.prefix| + 1..], x) ==> |x| <= |r.value.role|)
                  && (forall p :: p in prefixes && ParseUnder(cn, p, mapping).Some? ==> |p| <= |r.value.prefix|))
            && (r.None? ==> forall p :: p in prefixes ==> ParseUnder(cn, p, mapping).None?)
  {
    var r := Parse(cn, prefixes, mapping);
    ParseBeforeIsLongest(cn, Elements(prefixes), mapping, |cn|);
    hide Parses, ParseUnder, Ends;
    forall p
      ensures ParseUnder(cn, p, mapping).Some? <==> Parses(cn, p, mapping)
      ensures ParseUnder(cn, p, mapping).Some? ==> |p| < |cn|
    {
      ParsesExactly(cn, p, mapping);
      ParsesIsPrefixed(cn, p, mapping);
    }
    if r.Some? {
      ParseUnderSpec(cn, r.value.prefix, mapping);
    }
  }

  lemma ParsePrefixed(cn: string, prefixes: seq<string>, mapping: RoleMapping)
    ensures var r := Parse(cn, prefixes, mapping);
            r.Some? ==> r.value.prefix in prefixes && r.value.prefix + "-" <= cn
  {
    hide ParseBefore, ParseUnder;
    ParseBeforeIsLongest(cn, Elements(prefixes), mapping, |cn|);
    if Parse(cn, prefixes, mapping).Some? {
      ParsesIsPrefixed(cn, Parse(cn, prefixes, mapping).value.prefix, mapping);
    }
  }

  /** The order and repetition of prefixes do not matter. */
  lemma ParseIgnoresOrder(cn: string, ps: seq<string>, qs: seq<string>, mapping: RoleMapping)
    requires forall p :: p in ps <==> p in qs
    ensures Parse(cn, ps, mapping) == Parse(cn, qs, mapping)
  {
    assert Elements(ps) == Elements(qs);
  }

  // ---------- the operator's methods ----------

  /** The longest of the roles seen so far that `rest` ends with, and what it leaves. */
  ghost predicate BestSoFar(rest: string, mapping: RoleMapping, seen: set<string>, role: string, namespace: string) {
    && (role != "" ==> role in mapping && Ends(rest, role) && namespace == TrimSuffix(rest, "-" + role))
    && forall x :: x in seen && Ends(rest, x) ==> |x| <= |role|
  }

  lemma OneMoreRole(rest: string, mapping: RoleMapping, seen: set<string>, role: string, namespace: string,
                    next: string)
    requires BestSoFar(rest, mapping, seen, role, namespace) && next in mapping
    ensures var better := HasSuffix(rest, "-" + next) && |next| > |role|;
            BestSoFar(rest, mapping, seen + {next}, if better then next else role,
                      if better then TrimSuffix(rest, "-" + next) else namespace)
  {
    hide TrimSuffix, HasSuffix;
  }

  lemma BestIsParse(cn: string, prefix: string, mapping: RoleMapping, role: string, namespace: string)
    requires prefix + "-" <= cn && BestSoFar(cn[|prefix| + 1..], mapping, mapping.Keys, role, namespace)
    ensures ParseUnder(cn, prefix, mapping)
            == if role == "" || namespace == "" then None else Some(Parsed(namespace, role, prefix))
  {
    hide Ends, TrimSuffix, LongestRole;
    var rest := cn[|prefix| + 1..];
    if role == "" {
      assert forall x :: x in mapping.Keys && x != "" ==> !Ends(rest, x);
      LongestRoleNone(rest, mapping.Keys);
    } else {
      LongestRoleUnique(rest, mapping.Keys, role);
      WhatIsLeft(rest, role);
    }
  }

  lemma WhatIsLeft(rest: string, role: string)
    requires Ends(rest, role)
    ensures TrimSuffix(rest, "-" + role) == "" <==> rest == "-" + role
  {
    SuffixSplits(rest, "-" + role);
  }

  lemma PrefixIsTrimmed(cn: string, prefix: string)
    ensures TrimPrefix(cn, prefix + "-") != cn <==> prefix + "-" <= cn
    ensures prefix + "-" <= cn ==> TrimPrefix(cn, prefix + "-") == cn[|prefix| + 1..]
  {}

  /** One scan of the role mapping, in whatever order the map yields its keys. */
  method ParsePermissionString(cn: string, prefix: string, mapping: RoleMapping) returns (r: Option<Parsed>)
    ensures r == ParseUnder(cn, prefix, mapping)
  {
    hide ParseUnder, BestSoFar, TrimSuffix, TrimPrefix, HasSuffix;
    var withoutPrefix := TrimPrefix(cn, prefix + "-");
    PrefixIsTrimmed(cn, prefix);
    if withoutPrefix == cn {
      NotPrefixed(cn, prefix, mapping);
      return None;
    }
    var matchedRole, namespace, maxRoleLength := "", "", 0;
    var todo := mapping.Keys;
    NothingSeen(withoutPrefix, mapping);
    assert mapping.Keys - todo == {};
    while todo != {}
      invariant todo <= mapping.Keys
      invariant maxRoleLength == |matchedRole|
      invariant BestSoFar(withoutPrefix, mapping, mapping.Keys - todo, matchedRole, namespace)
      decreases |todo|
    {
      var role :| role in todo;
      OneMoreRole(withoutPrefix, mapping, mapping.Keys - todo, matchedRole, namespace, role);
      assert mapping.Keys - (todo - {role}) == (mapping.Keys - todo) + {role};
      todo := todo - {role};
      var suffix := "-" + role;
      if HasSuffix(withoutPrefix, suffix) {
        if |role| > maxRoleLength {
          matchedRole := role;
          namespace := TrimSuffix(withoutPrefix, suffix);
          maxRoleLength := |role|;
        }
      }
    }
    assert mapping.Keys - todo == mapping.Keys;
    BestIsParse(cn, prefix, mapping, matchedRole, namespace);
    if matchedRole == "" {
      return None;
    }
    if namespace == "" {
      return None;
    }
    return Some(Parsed(namespace, matchedRole, prefix));
  }

  lemma NotPrefixed(cn: string, prefix: string, mapping: RoleMapping)
    requires !(prefix + "-" <= cn)
    ensures ParseUnder(cn, prefix, mapping).None?
  {}

  lemma NothingSeen(rest: string, mapping: RoleMapping)
    ensures BestSoFar(rest, mapping, {}, "", "")
  {}

  predicate NotShorter(a: string, b: string) {
    |a| >= |b|
  }

  /** A copy of the names, longest first. */
  method SortByLength(names: seq<string>) returns (sorted: seq<string>)
    ensures Sorted(sorted, NotShorter)
    ensures forall x :: x in sorted <==> x in names
  {
    var a := new string[|names|](i requires 0 <= i < |names| => names[i]);
    assert a[..] == names;
    ExchangeSort(a, NotShorter);
    sorted := a[..];
  }

  method ParsePermissionStringWithPrefixes(cn: string, prefixes: seq<string>, mapping: RoleMapping)
    returns (r: Option<Parsed>)
    ensures r == Parse(cn, prefixes, mapping)
  {
    var candidates := SortByLength(prefixes);
    for i := 0 to |candidates|
      invariant forall k :: 0 <= k < i ==> ParseUnder(cn, candidates[k], mapping).None?
    {
      r := ParsePermissionString(cn, candidates[i], mapping);
      if r.Some? {
        FirstSuccessIsParse(cn, prefixes, mapping, candidates, i);
        return;
      }
    }
    NoSuccessIsNone(cn, prefixes, mapping, candidates);
    return None;
  }

  lemma NoSuccessIsNone(cn: string, prefixes: seq<string>, mapping: RoleMapping, sorted: seq<string>)
    requires forall x :: x in sorted <==> x in prefixes
    requires forall k :: 0 <= k < |sorted| ==> ParseUnder(cn, sorted[k], mapping).None?
    ensures Parse(cn, prefixes, mapping).None?
  {
    ParseBeforeIsLongest(cn, Elements(prefixes), mapping, |cn|);
    var r := Parse(cn, prefixes, mapping);
    if r.Some? {
      assert r.value.prefix in sorted;
    }
  }

  lemma FirstSuccessIsParse(cn: string, prefixes: seq<string>, mapping: RoleMapping, sorted: seq<string>, i: nat)
    requires i < |sorted| && Sorted(sorted, NotShorter) && forall x :: x in sorted <==> x in prefixes
    requires ParseUnder(cn, sorted[i], mapping).Some?
    requires forall k :: 0 <= k < i ==> ParseUnder(cn, sorted[k], mapping).None?
    ensures Parse(cn, prefixes, mapping) == ParseUnder(cn, sorted[i], mapping)
  {
    hide ParseUnder, ParseBefore;
    assert sorted[i] in sorted;
    ParsesIsPrefixed(cn, sorted[i], mapping);
    ParseBeforeIsLongest(cn, Elements(prefixes), mapping, |cn|);
    var p := Parse(cn, prefixes, mapping).value.prefix;
    ParsesIsPrefixed(cn, p, mapping);
    var j :| 0 <= j < |sorted| && sorted[j] == p;
    assert j >= i;
    assert j > i ==> NotShorter(sorted[i], sorted[j]);
    PrefixDash(cn, p);
    PrefixDash(cn, sorted[i]);
  }

  // ---------- the CN of a whitelist line ----------

  const CN_MARKER := "CN="

  /** What follows the first "CN=", up to the next comma, trimmed. */
  function ExtractCN(dn: string): Option<string> {
    match FindFrom(dn, CN_MARKER, 0)
    case None => None
    case Some(i) =>
      var after := dn[i + |CN_MARKER|..];
      Some(TrimSpace(after[..IndexFrom(after, ',', 0)]))
  }

  /**
    There is a CN exactly if the line reads "CN=" somewhere. It is what stands between the
    first place where it does and the next comma, or the end, trimmed.
   */
  lemma ExtractCNExactly(dn: string) returns (from: nat, to: nat)
    ensures ExtractCN(dn).Some? <==> exists i :: 0 <= i <= |dn| && "CN=" <= dn[i..]
    ensures ExtractCN(dn).Some? ==>
              && 3 <= from <= to <= |dn| && dn[from - 3..from] == "CN="
              && (forall i :: 0 <= i < from - 3 ==> !("CN=" <= dn[i..]))
              && ',' !in dn[from..to] && (to < |dn| ==> dn[to] == ',')
              && ExtractCN(dn) == Some(TrimSpace(dn[from..to]))
  {
    from, to := 0, 0;
    match FindFrom(dn, CN_MARKER, 0)
    case None =>
    case Some(i) =>
      from := i + 3;
      var after := dn[from..];
      var n := IndexFrom(after, ',', 0);
      to := from + n;
      assert after[0..n] == dn[from..to] == after[..n];
      assert dn[i..][..3] == dn[i..i + 3];
  }

  /** A line written as a DN gives its CN back, when nothing before it reads "CN=". */
  lemma ExtractCNRoundTrip(cn: string, rest: string)
    requires ',' !in cn && TrimSpace(cn) == cn
    requires rest == "" || rest[0] == ','
    ensures ExtractCN(CN_MARKER + cn + rest) == Some(cn)
  {
    var dn := CN_MARKER + cn + rest;
    assert dn[0..] == dn;
    var after := dn[|CN_MARKER|..];
    assert after == cn + rest;
    assert after[0..|cn|] == after[..|cn|] == cn;
    IndexFromIs(after, ',', 0, |cn|);
  }

  // ---------- the role in a RoleBinding's name ----------

  /** The last dash-separated segment, if there are at least two. */
  function LastSegment(name: string): string {
    var parts := Split(name, '-');
    if |parts| >= 2 then parts[|parts| - 1] else ""
  }

  function ExtractRole(name: string, mapping: RoleMapping): string {
    match FirstTail(name, mapping.Keys, 0)
    case Some(role) => role
    case None => LastSegment(name)
  }

  /**
    A role of the mapping that the name ends with is found, the longest one; otherwise
    the answer is empty or no role of the mapping.
   */
  lemma ExtractRoleSpec(name: string, mapping: RoleMapping)
    ensures var r := ExtractRole(name, mapping);
            && (r in mapping && Ends(name, r) ==> forall x :: x in mapping && Ends(name, x) ==> |x| <= |r|)
            && ((exists x :: x in mapping && Ends(name, x)) ==> r in mapping && Ends(name, r))
            && (r in mapping && !Ends(name, r) ==> r == "")
  {
    FirstTailIsLongest(name, mapping.Keys, 0);
    SplitLast(name, '-');
    if FirstTail(name, mapping.Keys, 0).None? && |Split(name, '-')| >= 2 {
      assert Ends(name, LastSegment(name));
    }
  }

  lemma UnendedIsLast(name: string, mapping: RoleMapping)
    requires forall role :: role in mapping ==> !Ends(name, role)
    ensures ExtractRole(name, mapping) == LastSegment(name)
  {
    FirstTailIsLongest(name, mapping.Keys, 0);
  }

  lemma ExtractRoleUnique(name: string, mapping: RoleMapping, role: string)
    requires role in mapping && Ends(name, role)
    requires forall x :: x in mapping && Ends(name, x) ==> |x| <= |role|
    ensures ExtractRole(name, mapping) == role
  {
    hide Ends;
    FirstTailIsLongest(name, mapping.Keys, 0);
    assert |role| < |name| by { EndsIsShorter(name, role); }
    EndsDetermined(name, role, FirstTail(name, mapping.Keys, 0).value);
  }

  lemma EndsIsShorter(s: string, role: string)
    ensures Ends(s, role) ==> |role| < |s|
  {}

  lemma AfterPrefix(cn: string, prefix: string, namespace: string, role: string)
    requires cn == prefix + "-" + namespace + "-" + role
    ensures cn[|prefix| + 1..] == namespace + "-" + role && Ends(namespace + "-" + role, role)
  {
    assert cn == (prefix + "-") + (namespace + "-" + role);
    assert namespace + "-" + role == namespace + ("-" + role);
    SuffixOfConcat(namespace, "-" + role);
  }

  /** The cleanup's role extractor recovers the role the whitelist parser chose. */
  lemma ParserAndExtractorAgree(cn: string, prefixes: seq<string>, mapping: RoleMapping)
    ensures var r := Parse(cn, prefixes, mapping);
            r.Some? ==> ExtractRole(r.value.namespace + "-" + r.value.role, mapping) == r.value.role
  {
    hide Parse, Parses, ParseUnder, ExtractRole, Ends;
    var r := Parse(cn, prefixes, mapping);
    if r.Some? {
      ParseSpec(cn, prefixes, mapping);
      AfterPrefix(cn, r.value.prefix, r.value.namespace, r.value.role);
      ExtractRoleUnique(r.value.namespace + "-" + r.value.role, mapping, r.value.role);
    }
  }

  method ExtractRoleFromRoleBindingName(name: string, mapping: RoleMapping) returns (r: string)
    ensures r == ExtractRole(name, mapping)
  {
    // Collect the keys in whatever order the map yields them.
    var roleNames: seq<string> := [];
    var todo := mapping.Keys;
    while todo != {}
      invariant todo <= mapping.Keys
      invariant forall x :: x in roleNames <==> x in mapping.Keys - todo
      decreases |todo|
    {
      var role :| role in todo;
      todo := todo - {role};
      roleNames := roleNames + [role];
    }
    var candidates := SortByLength(roleNames);
    for i := 0 to |candidates|
      invariant forall k :: 0 <= k < i ==> !Ends(name, candidates[k])
    {
      if HasSuffix(name, "-" + candidates[i]) {
        FirstEndingIsLongest(name, mapping, candidates, i);
        return candidates[i];
      }
    }
    assert FirstTail(name, mapping.Keys, 0).None? by {
      FirstTailIsLongest(name, mapping.Keys, 0);
      assert forall x :: x in candidates ==> !Ends(name, x);
    }
    var parts := Split(name, '-');
    if |parts| >= 2 {
      return parts[|parts| - 1];
    }
    return "";
  }

  lemma FirstEndingIsLongest(name: string, mapping: RoleMapping, sorted: seq<string>, i: nat)
    requires i < |sorted| && Sorted(sorted, NotShorter)
    requires forall x :: x in sorted <==> x in mapping
    requires Ends(name, sorted[i]) && forall k :: 0 <= k < i ==> !Ends(name, sorted[k])
    ensures ExtractRole(name, mapping) == sorted[i]
  {
    assert sorted[i] in sorted;
    FirstTailIsLongest(name, mapping.Keys, 0);
    var role := FirstTail(name, mapping.Keys, 0).value;
    var j :| 0 <= j < |sorted| && sorted[j] == role;
    assert j > i ==> NotShorter(sorted[i], sorted[j]);
    EndsDetermined(name, role, sorted[i]);
  }
}
