/**
  Drift comparison of NetworkPolicies (network_policy_drift.go): two specs are brought to
  a normal form, ports and peers sorted inside each rule and then the rules sorted, and
  the forms are compared through a hash.

  Main result: the normal forms are equal exactly when the specs are equal as nested
  multisets. Ports, peers and JSON texts are abstract; what is assumed of a text
  encoding is that it is injective, and only where it is needed.
 */
module NetworkPolicyDrift {
  import opened Strings
  import opened Sorting

  // ---------- specs ----------

  datatype Rule<Port, Peer> = Rule(ports: seq<Port>, peers: seq<Peer>)

  /** One requirement of a selector; values keep their order, and a nil list is not an empty one. */
  datatype Requirement = Requirement(key: string, operator: string, values: Option<seq<string>>)

  datatype Selector = Selector(matchLabels: map<string, string>, matchExpressions: seq<Requirement>)

  /** In the text that is compared, absent policy types read null and empty ones []. */
  datatype PolicySpec<Port, Peer> = PolicySpec(
    podSelector: Selector, policyTypes: Option<seq<string>>,
    ingress: seq<Rule<Port, Peer>>, egress: seq<Rule<Port, Peer>>)

  /** The JSON texts by which the operator sorts. */
  datatype Texts<!Port, !Peer> = Texts(
    port: Port -> string, peer: Peer -> string, rule: Rule<Port, Peer> -> string)

  ghost predicate Injective<T(!new)>(f: T -> string) {
    forall x, y :: f(x) == f(y) ==> x == y
  }

  ghost predicate Faithful<Port(!new), Peer(!new)>(t: Texts<Port, Peer>) {
    Injective(t.port) && Injective(t.peer) && Injective(t.rule)
  }

  // ---------- sorting by text ----------

  function ByText<T>(text: T -> string): (T, T) -> bool {
    (x: T, y: T) => Leq(text(x), text(y))
  }

  lemma ByTextIsOrder<T(!new)>(text: T -> string)
    ensures TotalPreorder(ByText(text))
    ensures Injective(text) ==> Antisymmetric(ByText(text))
  {
    LeqIsOrder();
  }

  /** A rearrangement in text order: what a sort may return. */
  ghost predicate IsSortOf<T>(sorted: seq<T>, s: seq<T>, text: T -> string) {
    Sorted(sorted, ByText(text)) && multiset(sorted) == multiset(s)
  }

  method SortByText<T(!new)>(s: seq<T>, text: T -> string) returns (sorted: seq<T>)
    ensures IsSortOf(sorted, s, text)
  {
    ByTextIsOrder(text);
    var a := new T[|s|](i requires 0 <= i < |s| => s[i]);
    assert a[..] == s;
    ExchangeSort(a, ByText(text));
    sorted := a[..];
  }

  /** With an injective text, sorting forgets exactly the order. */
  lemma SortDecidesMultiset<T(!new)>(a: seq<T>, b: seq<T>, sa: seq<T>, sb: seq<T>, text: T -> string)
    requires Injective(text) && IsSortOf(sa, a, text) && IsSortOf(sb, b, text)
    ensures sa == sb <==> multiset(a) == multiset(b)
  {
    ByTextIsOrder(text);
    if multiset(a) == multiset(b) {
      SortedUnique(sa, sb, ByText(text));
    }
  }

  // ---------- normal forms ----------

  ghost predicate IsNormalRule<Port, Peer>(n: Rule<Port, Peer>, r: Rule<Port, Peer>, t: Texts<Port, Peer>) {
    IsSortOf(n.ports, r.ports, t.port) && IsSortOf(n.peers, r.peers, t.peer)
  }

  /** Each rule sorted inside, and then the rules sorted. */
  ghost predicate IsNormalRules<Port(!new), Peer(!new)>(
    n: seq<Rule<Port, Peer>>, rs: seq<Rule<Port, Peer>>, t: Texts<Port, Peer>)
  {
    exists each: seq<Rule<Port, Peer>> ::
      && |each| == |rs|
      && (forall i :: 0 <= i < |rs| ==> IsNormalRule(each[i], rs[i], t))
      && IsSortOf(n, each, t.rule)
  }

  ghost predicate IsNormalSpec<Port(!new), Peer(!new)>(
    n: PolicySpec<Port, Peer>, s: PolicySpec<Port, Peer>, t: Texts<Port, Peer>)
  {
    && n.podSelector == s.podSelector && n.policyTypes == s.policyTypes
    && IsNormalRules(n.ingress, s.ingress, t) && IsNormalRules(n.egress, s.egress, t)
  }

  // ---------- equality as nested multisets ----------

  datatype RuleBag<Port, Peer> = RuleBag(ports: multiset<Port>, peers: multiset<Peer>)

  ghost function BagOf<Port, Peer>(r: Rule<Port, Peer>): RuleBag<Port, Peer> {
    RuleBag(multiset(r.ports), multiset(r.peers))
  }

  ghost function Bags<Port, Peer>(rs: seq<Rule<Port, Peer>>): multiset<RuleBag<Port, Peer>> {
    multiset(seq(|rs|, i requires 0 <= i < |rs| => BagOf(rs[i])))
  }

  ghost predicate SameRules<Port, Peer>(a: PolicySpec<Port, Peer>, b: PolicySpec<Port, Peer>) {
    && a.podSelector == b.podSelector && a.policyTypes == b.policyTypes
    && Bags(a.ingress) == Bags(b.ingress) && Bags(a.egress) == Bags(b.egress)
  }

  // ---------- multisets through two views ----------

  ghost function RemoveAt<T>(s: seq<T>, i: nat): seq<T>
    requires i < |s|
  {
    s[..i] + s[i + 1..]
  }

  lemma RemoveAtMultiset<T>(s: seq<T>, i: nat)
    requires i < |s|
    ensures multiset(RemoveAt(s, i)) == multiset(s) - multiset{s[i]}
  {
    assert s == s[..i] + [s[i]] + s[i + 1..];
  }

  /** `a1[i]` and `b1[j]` are equal just when `a2[i]` and `b2[j]` are. */
  ghost predicate SameMatches<T, U>(a1: seq<T>, a2: seq<U>, b1: seq<T>, b2: seq<U>)
    requires |a1| == |a2| && |b1| == |b2|
  {
    forall i, j :: 0 <= i < |a1| && 0 <= j < |b1| ==> (a1[i] == b1[j] <==> a2[i] == b2[j])
  }

  lemma SameMatchesWithout<T, U>(a1: seq<T>, a2: seq<U>, b1: seq<T>, b2: seq<U>, j: nat)
    requires |a1| == |a2| && |b1| == |b2| && a1 != [] && j < |b1|
    requires SameMatches(a1, a2, b1, b2)
    ensures SameMatches(a1[1..], a2[1..], RemoveAt(b1, j), RemoveAt(b2, j))
  {
    forall i, k | 0 <= i < |a1| - 1 && 0 <= k < |b1| - 1
      ensures a1[1..][i] == RemoveAt(b1, j)[k] <==> a2[1..][i] == RemoveAt(b2, j)[k]
    {
      var k' := if k < j then k else k + 1;
      assert RemoveAt(b1, j)[k] == b1[k'] && RemoveAt(b2, j)[k] == b2[k'];
      assert a1[1..][i] == a1[i + 1] && a2[1..][i] == a2[i + 1];
    }
  }

  /**
    Two views of a pair of sequences with the same matches agree on whether the
    sequences are equal as multisets.
   */
  lemma {:induction false} ViewsAgree<T, U>(a1: seq<T>, a2: seq<U>, b1: seq<T>, b2: seq<U>)
    requires |a1| == |a2| && |b1| == |b2|
    requires SameMatches(a1, a2, b1, b2)
    requires multiset(a1) == multiset(b1)
    ensures multiset(a2) == multiset(b2)
  {
    assert |multiset(a1)| == |multiset(b1)|;
    if a1 == [] {
      assert a2 == [] && b2 == [];
    } else {
      assert a1[0] in multiset(b1);
      var j :| 0 <= j < |b1| && b1[j] == a1[0];
      assert a2[0] == b2[j];
      SameMatchesWithout(a1, a2, b1, b2, j);
      TailMultiset(a1, b1, j);
      ViewsAgree(a1[1..], a2[1..], RemoveAt(b1, j), RemoveAt(b2, j));
      RestoreMultiset(a2, b2, j);
    }
  }

  lemma TailMultiset<T>(a: seq<T>, b: seq<T>, j: nat)
    requires a != [] && j < |b| && a[0] == b[j] && multiset(a) == multiset(b)
    ensures multiset(a[1..]) == multiset(RemoveAt(b, j))
  {
    assert a == [a[0]] + a[1..];
    RemoveAtMultiset(b, j);
  }

  lemma RestoreMultiset<T>(a: seq<T>, b: seq<T>, j: nat)
    requires a != [] && j < |b| && a[0] == b[j] && multiset(a[1..]) == multiset(RemoveAt(b, j))
    ensures multiset(a) == multiset(b)
  {
    assert a == [a[0]] + a[1..];
    assert b == b[..j] + [b[j]] + b[j + 1..];
  }

  lemma NormalRuleDecidesBag<Port(!new), Peer(!new)>(
    n: Rule<Port, Peer>, r: Rule<Port, Peer>, m: Rule<Port, Peer>, q: Rule<Port, Peer>, t: Texts<Port, Peer>)
    requires Faithful(t) && IsNormalRule(n, r, t) && IsNormalRule(m, q, t)
    ensures n == m <==> BagOf(r) == BagOf(q)
  {
    SortDecidesMultiset(r.ports, q.ports, n.ports, m.ports, t.port);
    SortDecidesMultiset(r.peers, q.peers, n.peers, m.peers, t.peer);
  }

  lemma NormalRulesDecideBags<Port(!new), Peer(!new)>(
    n: seq<Rule<Port, Peer>>, rs: seq<Rule<Port, Peer>>, m: seq<Rule<Port, Peer>>, qs: seq<Rule<Port, Peer>>,
    t: Texts<Port, Peer>)
    requires Faithful(t) && IsNormalRules(n, rs, t) && IsNormalRules(m, qs, t)
    ensures n == m <==> Bags(rs) == Bags(qs)
  {
    var e: seq<Rule<Port, Peer>> :|
      |e| == |rs| && (forall i :: 0 <= i < |rs| ==> IsNormalRule(e[i], rs[i], t)) && IsSortOf(n, e, t.rule);
    var f: seq<Rule<Port, Peer>> :|
      |f| == |qs| && (forall i :: 0 <= i < |qs| ==> IsNormalRule(f[i], qs[i], t)) && IsSortOf(m, f, t.rule);
    SortDecidesMultiset(e, f, n, m, t.rule);
    NormalizedDecideBags(e, rs, f, qs, t);
  }

  lemma NormalizedDecideBags<Port(!new), Peer(!new)>(
    e: seq<Rule<Port, Peer>>, rs: seq<Rule<Port, Peer>>, f: seq<Rule<Port, Peer>>, qs: seq<Rule<Port, Peer>>,
    t: Texts<Port, Peer>)
    requires Faithful(t) && |e| == |rs| && |f| == |qs|
    requires forall i :: 0 <= i < |rs| ==> IsNormalRule(e[i], rs[i], t)
    requires forall i :: 0 <= i < |qs| ==> IsNormalRule(f[i], qs[i], t)
    ensures multiset(e) == multiset(f) <==> Bags(rs) == Bags(qs)
  {
    var rb := seq(|rs|, i requires 0 <= i < |rs| => BagOf(rs[i]));
    var qb := seq(|qs|, i requires 0 <= i < |qs| => BagOf(qs[i]));
    hide IsNormalRule, BagOf, Faithful;
    forall i, j | 0 <= i < |e| && 0 <= j < |f|
      ensures e[i] == f[j] <==> rb[i] == qb[j]
    {
      NormalRuleDecidesBag(e[i], rs[i], f[j], qs[j], t);
    }
    assert SameMatches(e, rb, f, qb) && SameMatches(rb, e, qb, f);
    if multiset(e) == multiset(f) {
      ViewsAgree(e, rb, f, qb);
    }
    if multiset(rb) == multiset(qb) {
      ViewsAgree(rb, e, qb, f);
    }
  }

  /**
    Normal forms decide equality of rules up to the order of rules, and of ports and
    peers inside them. Selectors and policy types are compared as they are.
   */
  lemma NormalFormDecides<Port(!new), Peer(!new)>(
    n: PolicySpec<Port, Peer>, a: PolicySpec<Port, Peer>, m: PolicySpec<Port, Peer>, b: PolicySpec<Port, Peer>,
    t: Texts<Port, Peer>)
    requires Faithful(t) && IsNormalSpec(n, a, t) && IsNormalSpec(m, b, t)
    ensures n == m <==> SameRules(a, b)
  {
    NormalRulesDecideBags(n.ingress, a.ingress, m.ingress, b.ingress, t);
    NormalRulesDecideBags(n.egress, a.egress, m.egress, b.egress, t);
  }

  // ---------- a normal form keeps the rules ----------

  lemma BagsWithout<Port, Peer>(rs: seq<Rule<Port, Peer>>, j: nat)
    requires j < |rs|
    ensures Bags(rs) == Bags(RemoveAt(rs, j)) + multiset{BagOf(rs[j])}
  {
    var bags := seq(|rs|, i requires 0 <= i < |rs| => BagOf(rs[i]));
    var rest := RemoveAt(rs, j);
    assert seq(|rest|, i requires 0 <= i < |rest| => BagOf(rest[i])) == RemoveAt(bags, j);
    assert bags == bags[..j] + [bags[j]] + bags[j + 1..];
  }

  lemma {:induction false} BagsOfRearranged<Port, Peer>(a: seq<Rule<Port, Peer>>, b: seq<Rule<Port, Peer>>)
    requires multiset(a) == multiset(b)
    ensures Bags(a) == Bags(b)
  {
    assert |multiset(a)| == |multiset(b)|;
    if a == [] {
      assert b == [];
    } else {
      assert a[0] in multiset(b);
      var j :| 0 <= j < |b| && b[j] == a[0];
      TailMultiset(a, b, j);
      assert RemoveAt(a, 0) == a[1..];
      BagsOfRearranged(a[1..], RemoveAt(b, j));
      BagsWithout(a, 0);
      BagsWithout(b, j);
    }
  }

  lemma NormalRulesKeepBags<Port(!new), Peer(!new)>(
    n: seq<Rule<Port, Peer>>, rs: seq<Rule<Port, Peer>>, t: Texts<Port, Peer>)
    requires IsNormalRules(n, rs, t)
    ensures Bags(n) == Bags(rs)
  {
    var each: seq<Rule<Port, Peer>> :|
      |each| == |rs| && (forall i :: 0 <= i < |rs| ==> IsNormalRule(each[i], rs[i], t)) && IsSortOf(n, each, t.rule);
    hide IsNormalRule, BagOf, Sorted;
    BagsOfRearranged(n, each);
    forall i | 0 <= i < |rs|
      ensures BagOf(each[i]) == BagOf(rs[i])
    {
      NormalRuleKeepsBag(each[i], rs[i], t);
    }
    BagsMatch(each, rs);
  }

  lemma NormalRuleKeepsBag<Port(!new), Peer(!new)>(n: Rule<Port, Peer>, r: Rule<Port, Peer>, t: Texts<Port, Peer>)
    requires IsNormalRule(n, r, t)
    ensures BagOf(n) == BagOf(r)
  {}

  lemma BagsMatch<Port, Peer>(a: seq<Rule<Port, Peer>>, b: seq<Rule<Port, Peer>>)
    requires |a| == |b| && forall i :: 0 <= i < |a| ==> BagOf(a[i]) == BagOf(b[i])
    ensures Bags(a) == Bags(b)
  {
    assert seq(|a|, i requires 0 <= i < |a| => BagOf(a[i])) == seq(|b|, i requires 0 <= i < |b| => BagOf(b[i]));
  }

  /** Whatever the texts: selector, policy types and the rules of each direction are those of the spec. */
  lemma NormalFormKeepsRules<Port(!new), Peer(!new)>(
    n: PolicySpec<Port, Peer>, s: PolicySpec<Port, Peer>, t: Texts<Port, Peer>)
    requires IsNormalSpec(n, s, t)
    ensures SameRules(n, s)
  {
    NormalRulesKeepBags(n.ingress, s.ingress, t);
    NormalRulesKeepBags(n.egress, s.egress, t);
  }

  // ---------- the operator's methods ----------

  method NormalizeRules<Port(!new), Peer(!new)>(rules: seq<Rule<Port, Peer>>, t: Texts<Port, Peer>)
    returns (normalized: seq<Rule<Port, Peer>>)
    ensures IsNormalRules(normalized, rules, t)
  {
    var each: seq<Rule<Port, Peer>> := [];
    for i := 0 to |rules|
      invariant |each| == i
      invariant forall k :: 0 <= k < i ==> IsNormalRule(each[k], rules[k], t)
    {
      var ports := SortByText(rules[i].ports, t.port);
      var peers := SortByText(rules[i].peers, t.peer);
      each := each + [Rule(ports, peers)];
    }
    normalized := SortByText(each, t.rule);
  }

  method NormalizeNetworkPolicySpec<Port(!new), Peer(!new)>(spec: PolicySpec<Port, Peer>, t: Texts<Port, Peer>)
    returns (normalized: PolicySpec<Port, Peer>)
    ensures IsNormalSpec(normalized, spec, t)
  {
    var ingress := NormalizeRules(spec.ingress, t);
    var egress := NormalizeRules(spec.egress, t);
    normalized := PolicySpec(spec.podSelector, spec.policyTypes, ingress, egress);
  }

  /**
    The comparison through a digest. Specs with the same rules always compare equal; the
    converse holds when the digest does not collide.
   */
  method CompareNetworkPolicyRules<Port(!new), Peer(!new)>(
    a: PolicySpec<Port, Peer>, b: PolicySpec<Port, Peer>, t: Texts<Port, Peer>,
    digest: PolicySpec<Port, Peer> -> string)
    returns (equal: bool)
    ensures Faithful(t) && SameRules(a, b) ==> equal
    ensures Faithful(t) && Injective(digest) ==> (equal <==> SameRules(a, b))
  {
    var n := NormalizeNetworkPolicySpec(a, t);
    var m := NormalizeNetworkPolicySpec(b, t);
    if Faithful(t) {
      NormalFormDecides(n, a, m, b, t);
    }
    equal := digest(n) == digest(m);
  }
}
