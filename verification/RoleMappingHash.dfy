/**
  Change detection on the role mapping (reconciliation_configmap.go): the mapping is
  written as one string, keys in byte order, and the string is hashed. The hash is a
  parameter; nothing is assumed of it but that it is never empty.
 */
module RoleMappingHash {
  import opened Strings
  import opened Sorting
  import opened Cluster

  // ---------- the canonical string ----------

  function EntryText(key: string, value: string): string {
    key + "=" + value + ";"
  }

  /** The entries from one position on. */
  function Render(keys: seq<string>, from: nat, mapping: map<string, string>): string
    requires from <= |keys| && forall k :: k in keys ==> k in mapping
    decreases |keys| - from
  {
    if from == |keys| then ""
    else EntryText(keys[from], mapping[keys[from]]) + Render(keys, from + 1, mapping)
  }

  ghost predicate KeysInOrder(keys: seq<string>, mapping: map<string, string>) {
    && Sorted(keys, Leq)
    && Distinct(keys)
    && forall k :: k in keys <==> k in mapping
  }

  /** There is only one way to list a mapping's keys in order, so iteration order cannot show. */
  lemma KeyOrderUnique(keys1: seq<string>, keys2: seq<string>, mapping: map<string, string>)
    requires KeysInOrder(keys1, mapping) && KeysInOrder(keys2, mapping)
    ensures keys1 == keys2
  {
    forall x: string
      ensures multiset(keys1)[x] == multiset(keys2)[x]
    {
      DistinctMultiset(keys1, x);
      DistinctMultiset(keys2, x);
    }
    LeqIsOrder();
    SortedUnique(keys1, keys2, Leq);
  }

  function InsertInOrder(keys: seq<string>, x: string): seq<string> {
    if keys == [] || Leq(x, keys[0]) then [x] + keys else [keys[0]] + InsertInOrder(keys[1..], x)
  }

  lemma {:induction false} InsertKeepsOrder(keys: seq<string>, x: string)
    requires Sorted(keys, Leq) && x !in keys
    requires Distinct(keys)
    ensures var r := InsertInOrder(keys, x);
            && Sorted(r, Leq)
            && Distinct(r)
            && (forall y :: y in r <==> y in keys || y == x)
  {
    if keys == [] {
    } else {
      LeqIsOrder();
      InsertKeepsOrder(keys[1..], x);
      assert keys == [keys[0]] + keys[1..];
      if !Leq(x, keys[0]) {
        var tail := InsertInOrder(keys[1..], x);
        forall j | 0 <= j < |tail|
          ensures Leq(keys[0], tail[j]) && keys[0] != tail[j]
        {
          assert tail[j] in tail;
        }
      } else {
        forall j | 0 <= j < |keys|
          ensures Leq(x, keys[j]) && x != keys[j]
        {
          assert Leq(keys[0], keys[j]);
        }
      }
    }
  }

  lemma {:induction false} OrderExists(mapping: map<string, string>, ks: set<string>) returns (keys: seq<string>)
    requires ks <= mapping.Keys
    ensures Sorted(keys, Leq) && (forall k :: k in keys <==> k in ks)
    ensures Distinct(keys)
  {
    if ks == {} {
      keys := [];
    } else {
      var x :| x in ks;
      keys := OrderExists(mapping, ks - {x});
      InsertKeepsOrder(keys, x);
      keys := InsertInOrder(keys, x);
    }
  }

  lemma OrderWitness(mapping: map<string, string>)
    ensures exists keys :: KeysInOrder(keys, mapping)
  {
    var keys := OrderExists(mapping, mapping.Keys);
    assert KeysInOrder(keys, mapping);
  }

  /** The keys of a mapping in order. */
  ghost function OrderedKeys(mapping: map<string, string>): (keys: seq<string>)
    ensures KeysInOrder(keys, mapping)
  {
    OrderWitness(mapping);
    var keys :| KeysInOrder(keys, mapping);
    keys
  }

  /** What the operator writes for `mapping`. */
  ghost function CanonicalText(mapping: map<string, string>): string {
    Render(OrderedKeys(mapping), 0, mapping)
  }

  // ---------- decoding ----------

  datatype Parsed = Parsed(key: string, value: string, rest: string)

  /** The first entry: a key up to the first "=", a value up to the next ";". */
  function FirstEntry(text: string): (r: Option<Parsed>)
    ensures r.Some? ==> |r.value.rest| < |text|
  {
    var e := IndexFrom(text, '=', 0);
    if e == |text| then None
    else
      var v := IndexFrom(text, ';', e + 1);
      if v == |text| then None else Some(Parsed(text[..e], text[e + 1..v], text[v + 1..]))
  }

  /** Reads entries back. */
  function Decode(text: string): map<string, string>
    decreases |text|
  {
    match FirstEntry(text)
    case None => map[]
    case Some(p) => Decode(p.rest)[p.key := p.value]
  }

  predicate Unambiguous(mapping: map<string, string>) {
    forall k :: k in mapping ==> '=' !in k && ';' !in mapping[k]
  }

  lemma FirstEntryIs(text: string, e: nat, v: nat)
    requires e < v < |text| && text[e] == '=' && '=' !in text[0..e]
    requires text[v] == ';' && ';' !in text[e + 1..v]
    ensures FirstEntry(text) == Some(Parsed(text[..e], text[e + 1..v], text[v + 1..]))
  {
    hide IndexFrom;
    IndexFromIs(text, '=', 0, e);
    IndexFromIs(text, ';', e + 1, v);
  }

  lemma EntryParts(key: string, value: string, rest: string)
    ensures var text, e, v := EntryText(key, value) + rest, |key|, |key| + 1 + |value|;
            && e < v < |text| && text[e] == '=' && text[v] == ';'
            && text[..e] == text[0..e] == key && text[e + 1..v] == value && text[v + 1..] == rest
  {
    var text := EntryText(key, value) + rest;
    assert text == key + ("=" + (value + (";" + rest)));
  }

  lemma DecodeEntry(key: string, value: string, rest: string)
    requires '=' !in key && ';' !in value
    ensures Decode(EntryText(key, value) + rest) == Decode(rest)[key := value]
  {
    hide FirstEntry, EntryText;
    EntryParts(key, value, rest);
    FirstEntryIs(EntryText(key, value) + rest, |key|, |key| + 1 + |value|);
  }

  lemma {:induction false} DecodeRender(keys: seq<string>, from: nat, mapping: map<string, string>)
    requires from <= |keys| && Unambiguous(mapping) && forall k :: k in keys ==> k in mapping
    ensures Decode(Render(keys, from, mapping)) == map k | k in keys[from..] :: mapping[k]
    decreases |keys| - from
  {
    hide Decode, EntryText;
    if from == |keys| {
      assert Decode("") == map[] by { DecodeEmpty(); }
    } else {
      var key := keys[from];
      assert keys[from..] == [key] + keys[from + 1..];
      assert key in keys;
      DecodeEntry(key, mapping[key], Render(keys, from + 1, mapping));
      DecodeRender(keys, from + 1, mapping);
    }
  }

  lemma DecodeEmpty()
    ensures Decode("") == map[]
  {}

  /** The canonical string determines the mapping, when no key has a "=" and no value a ";". */
  lemma CanonicalDecodes(mapping: map<string, string>)
    requires Unambiguous(mapping)
    ensures Decode(CanonicalText(mapping)) == mapping
  {
    var keys := OrderedKeys(mapping);
    DecodeRender(keys, 0, mapping);
    assert keys[0..] == keys;
  }

  // ---------- who shares a text ----------

  ghost predicate TwoEquals(text: string) {
    exists i, j :: 0 <= i < j < |text| && text[i] == '=' && text[j] == '='
  }

  /** Some other mapping is written the same way, so an edit between the two goes unseen. */
  ghost predicate SharesText(mapping: map<string, string>) {
    exists other :: other != mapping && CanonicalText(other) == CanonicalText(mapping)
  }

  /** The one-entry mapping that reads the text as split at a given "=". */
  function SplitAt(text: string, i: nat): map<string, string>
    requires i < |text| - 1
  {
    map[text[..i] := text[i + 1..|text| - 1]]
  }

  lemma OneEntryText(key: string, value: string)
    ensures CanonicalText(map[key := value]) == EntryText(key, value)
  {
    hide EntryText;
    var m := map[key := value];
    assert KeysInOrder([key], m);
    KeyOrderUnique([key], OrderedKeys(m), m);
    assert Render([key], 1, m) == "";
  }

  lemma SplitHasText(text: string, i: nat)
    requires i < |text| - 1 && text[i] == '=' && text[|text| - 1] == ';'
    ensures CanonicalText(SplitAt(text, i)) == text
  {
    OneEntryText(text[..i], text[i + 1..|text| - 1]);
    assert text == text[..i] + "=" + text[i + 1..|text| - 1] + ";";
  }

  /** What is written from a position on starts with that entry and ends with a semicolon. */
  lemma {:induction false} RenderShape(keys: seq<string>, from: nat, mapping: map<string, string>)
    requires from < |keys| && forall k :: k in keys ==> k in mapping
    ensures var text, e := Render(keys, from, mapping), |keys[from]|;
            && e < |text| - 1 && text[e] == '=' && text[|text| - 1] == ';'
            && (from + 1 == |keys| ==> text == EntryText(keys[from], mapping[keys[from]]))
    decreases |keys| - from
  {
    hide EntryText;
    var key, rest := keys[from], Render(keys, from + 1, mapping);
    assert key in keys;
    EntryParts(key, mapping[key], rest);
    if from + 1 < |keys| {
      RenderShape(keys, from + 1, mapping);
    } else {
      assert EntryText(key, mapping[key]) + "" == EntryText(key, mapping[key]);
    }
  }

  lemma TwoKeysTwoEquals(mapping: map<string, string>)
    requires |OrderedKeys(mapping)| >= 2
    ensures TwoEquals(CanonicalText(mapping))
  {
    hide EntryText, KeysInOrder;
    var keys := OrderedKeys(mapping);
    assert forall k :: k in keys ==> k in mapping by { OrderedKeysKnown(mapping); }
    var text, rest := Render(keys, 0, mapping), Render(keys, 1, mapping);
    assert keys[0] in keys;
    EntryParts(keys[0], mapping[keys[0]], rest);
    RenderShape(keys, 1, mapping);
    var n := |text| - |rest|;
    assert text[n..] == rest;
    assert text[|keys[0]|] == '=' && text[n + |keys[1]|] == '=';
  }

  lemma OrderedKeysKnown(mapping: map<string, string>)
    ensures forall k :: k in OrderedKeys(mapping) <==> k in mapping
  {}

  /** With one key, the text is that entry and the mapping one of its splits. */
  lemma OneKeyText(mapping: map<string, string>)
    requires |OrderedKeys(mapping)| == 1
    ensures var key, text := OrderedKeys(mapping)[0], CanonicalText(mapping);
            && key in mapping && mapping == map[key := mapping[key]]
            && text == EntryText(key, mapping[key])
            && |key| < |text| - 1 && text[|key|] == '=' && text[|text| - 1] == ';' && mapping == SplitAt(text, |key|)
  {
    hide KeysInOrder, EntryText;
    var keys := OrderedKeys(mapping);
    OrderedKeysKnown(mapping);
    assert keys == [keys[0]];
    RenderShape(keys, 0, mapping);
    EntryParts(keys[0], mapping[keys[0]], "");
    assert EntryText(keys[0], mapping[keys[0]]) + "" == EntryText(keys[0], mapping[keys[0]]);
  }

  lemma NoKeyText(mapping: map<string, string>)
    ensures |OrderedKeys(mapping)| == 0 <==> mapping == map[]
    ensures |OrderedKeys(mapping)| == 0 <==> CanonicalText(mapping) == ""
  {
    hide KeysInOrder, EntryText;
    OrderedKeysKnown(mapping);
    if |OrderedKeys(mapping)| > 0 {
      assert OrderedKeys(mapping)[0] in mapping;
      RenderShape(OrderedKeys(mapping), 0, mapping);
    }
  }

  lemma AtMostOneEqualsDetermines(mapping: map<string, string>, other: map<string, string>)
    requires CanonicalText(other) == CanonicalText(mapping) && !TwoEquals(CanonicalText(mapping))
    ensures other == mapping
  {
    hide CanonicalText, EntryText;
    NoKeyText(mapping);
    NoKeyText(other);
    if |OrderedKeys(mapping)| >= 2 {
      TwoKeysTwoEquals(mapping);
    } else if |OrderedKeys(other)| >= 2 {
      TwoKeysTwoEquals(other);
    } else if |OrderedKeys(mapping)| == 1 {
      OneKeyText(mapping);
      OneKeyText(other);
    }
  }

  lemma TwoEqualsShare(mapping: map<string, string>)
    requires TwoEquals(CanonicalText(mapping))
    ensures SharesText(mapping)
  {
    hide CanonicalText, EntryText;
    var text := CanonicalText(mapping);
    NoKeyText(mapping);
    assert text[|text| - 1] == ';' by { LastIsSemicolon(mapping); }
    var i, j :| 0 <= i < j < |text| && text[i] == '=' && text[j] == '=';
    SplitHasText(text, i);
    SplitHasText(text, j);
    assert text[..i] in SplitAt(text, i) && text[..i] !in SplitAt(text, j) by { assert |text[..i]| != |text[..j]|; }
    assert SplitAt(text, i) != mapping || SplitAt(text, j) != mapping;
  }

  lemma LastIsSemicolon(mapping: map<string, string>)
    requires CanonicalText(mapping) != ""
    ensures var text := CanonicalText(mapping); text[|text| - 1] == ';'
  {
    RenderShape(OrderedKeys(mapping), 0, mapping);
  }

  /**
    Exactly which mappings share their text with another one: those whose text holds two
    "=", which is every mapping of two entries or more, and every entry with a "=" of its own.
   */
  lemma SharedTextExactly(mapping: map<string, string>)
    ensures SharesText(mapping) <==> TwoEquals(CanonicalText(mapping))
    ensures SharesText(mapping) <==>
            || (exists k, l :: k in mapping && l in mapping && k != l)
            || (exists k :: k in mapping && ('=' in k || '=' in mapping[k]))
  {
    hide CanonicalText, SharesText, TwoEquals, KeysInOrder, SplitAt;
    if TwoEquals(CanonicalText(mapping)) {
      TwoEqualsShare(mapping);
    } else {
      NotShared(mapping);
    }
    OrderedKeysKnown(mapping);
    var keys := OrderedKeys(mapping);
    if |keys| >= 2 {
      TwoKeysTwoEquals(mapping);
      assert keys[0] in mapping && keys[1] in mapping;
      assert keys[0] != keys[1] by { OrderedKeysDistinct(mapping); }
    } else if |keys| == 1 {
      OneKeyText(mapping);
      assert forall k :: k in mapping <==> k == keys[0];
      OneEntryEquals(keys[0], mapping[keys[0]]);
    } else {
      NoKeyText(mapping);
      assert !TwoEquals("") by { NoTwoEqualsInEmpty(); }
    }
  }

  lemma NotShared(mapping: map<string, string>)
    requires !TwoEquals(CanonicalText(mapping))
    ensures !SharesText(mapping)
  {
    hide CanonicalText, TwoEquals;
    forall other | CanonicalText(other) == CanonicalText(mapping)
      ensures other == mapping
    {
      AtMostOneEqualsDetermines(mapping, other);
    }
  }

  lemma OrderedKeysDistinct(mapping: map<string, string>)
    ensures Distinct(OrderedKeys(mapping))
  {}

  lemma NoTwoEqualsInEmpty()
    ensures !TwoEquals("")
  {}

  lemma OneEntryEquals(key: string, value: string)
    ensures TwoEquals(EntryText(key, value)) <==> '=' in key || '=' in value
  {
    var text, e := EntryText(key, value), |key|;
    assert text[e] == '=';
    assert forall i :: 0 <= i < e ==> text[i] == key[i];
    assert forall i :: 0 <= i < |value| ==> text[e + 1 + i] == value[i];
    assert text[|text| - 1] == ';';
    if '=' in key {
      var i :| 0 <= i < e && key[i] == '=';
      assert text[i] == '=';
    }
    if '=' in value {
      var i :| 0 <= i < |value| && value[i] == '=';
      assert text[e + 1 + i] == '=';
    }
    if i, j :| 0 <= i < j < |text| && text[i] == '=' && text[j] == '=' {
      if i < e {
        assert key[i] == '=';
      } else {
        assert j > e && text[e + 1 + (j - e - 1)] == value[j - e - 1];
      }
    }
  }

  lemma CanonicalInjective(m1: map<string, string>, m2: map<string, string>)
    requires Unambiguous(m1) && Unambiguous(m2)
    ensures CanonicalText(m1) == CanonicalText(m2) <==> m1 == m2
  {
    CanonicalDecodes(m1);
    CanonicalDecodes(m2);
  }

  /** Without that condition two mappings can share a string, so an edit can go unseen. */
  lemma AmbiguousExample()
    ensures var m1, m2 := map["a" := "b;c=d"], map["a" := "b", "c" := "d"];
            m1 != m2 && CanonicalText(m1) == "a=b;c=d;" == CanonicalText(m2)
  {
    var m1, m2 := map["a" := "b;c=d"], map["a" := "b", "c" := "d"];
    assert KeysInOrder(["a"], m1) && KeysInOrder(["a", "c"], m2);
    KeyOrderUnique(["a"], OrderedKeys(m1), m1);
    KeyOrderUnique(["a", "c"], OrderedKeys(m2), m2);
    assert Render(["a"], 0, m1) == "a=b;c=d;" + Render(["a"], 1, m1);
    assert Render(["a", "c"], 0, m2) == "a=b;" + Render(["a", "c"], 1, m2);
    assert Render(["a", "c"], 1, m2) == "c=d;" + Render(["a", "c"], 2, m2);
    assert "a" in m1 && "c" !in m1 && "c" in m2;
  }

  // ---------- the operator's methods ----------

  method RoleMappingText(mapping: map<string, string>) returns (text: string)
    ensures text == CanonicalText(mapping)
  {
    hide EntryText, KeysInOrder;
    var keys := SortedKeys(mapping);
    KeyOrderUnique(keys, OrderedKeys(mapping), mapping);
    OrderedKeysKnown(mapping);
    text := "";
    for i := 0 to |keys|
      invariant text + Render(keys, i, mapping) == Render(keys, 0, mapping)
    {
      ghost var before, rest := text, Render(keys, i + 1, mapping);
      assert keys[i] in keys;
      text := text + keys[i];
      text := text + "=";
      text := text + mapping[keys[i]];
      text := text + ";";
      EntryWritten(before, keys[i], mapping[keys[i]], rest);
    }
  }

  lemma EntryWritten(before: string, key: string, value: string, rest: string)
    ensures before + key + "=" + value + ";" + rest == before + (EntryText(key, value) + rest)
  {}

  /** The keys, collected in whatever order the map yields them, then sorted. */
  method SortedKeys(mapping: map<string, string>) returns (keys: seq<string>)
    ensures KeysInOrder(keys, mapping)
  {
    keys := [];
    var todo := mapping.Keys;
    while todo != {}
      invariant todo <= mapping.Keys
      invariant forall x :: x in keys <==> x in mapping.Keys - todo
      invariant Distinct(keys)
      decreases |todo|
    {
      var k :| k in todo;
      assert k !in keys;
      todo := todo - {k};
      keys := keys + [k];
    }
    LeqIsOrder();
    var a := new string[|keys|](i requires 0 <= i < |keys| => keys[i]);
    assert a[..] == keys;
    ExchangeSort(a, Leq);
    DistinctSurvives(keys, a[..]);
    keys := a[..];
  }

  lemma DistinctSurvives(s: seq<string>, t: seq<string>)
    requires multiset(s) == multiset(t)
    requires Distinct(s)
    ensures Distinct(t)
  {
    forall i, j | 0 <= i < j < |t|
      ensures t[i] != t[j]
    {
      DistinctMultiset(s, t[i]);
      assert t == t[..i] + [t[i]] + t[i + 1..j] + [t[j]] + t[j + 1..];
    }
  }

  /** A never-empty digest, such as SHA-256 in hexadecimal. */
  type Hash = string -> NonEmpty

  ghost function Digest(mapping: map<string, string>, hash: Hash): NonEmpty {
    hash(CanonicalText(mapping))
  }

  method HasRoleMappingChanged(mapping: map<string, string>, lastHash: string, hash: Hash)
    returns (changed: bool, currentHash: NonEmpty)
    ensures currentHash == Digest(mapping, hash)
    ensures changed <==> lastHash != Digest(mapping, hash)
  {
    var text := RoleMappingText(mapping);
    currentHash := hash(text);
    if lastHash == "" {
      return true, currentHash;
    }
    changed := currentHash != lastHash;
  }
}
