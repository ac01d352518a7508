/**
  The string operations of the operator. A Go string is a sequence of bytes; it is
  written here as a `string` with one `char` for each byte, so lengths, the byte
  order used by `sort.Strings` and prefix tests mean what they mean in the source.
 */
module Strings {

  datatype Option<+T> = None | Some(value: T) {
    function GetOr(default: T): T {
      if Some? then value else default
    }
  }

  function Elements<T(==)>(s: seq<T>): set<T> {
    set x | x in s
  }

  predicate Distinct<T(==)>(s: seq<T>) {
    forall i, j :: 0 <= i < j < |s| ==> s[i] != s[j]
  }

  lemma {:induction false} DistinctMultiset<T>(s: seq<T>, x: T)
    requires Distinct(s)
    ensures multiset(s)[x] == if x in s then 1 else 0
  {
    if s == [] {
    } else {
      DistinctMultiset(s[1..], x);
      assert s == [s[0]] + s[1..];
    }
  }

  /** A list of the elements of a set, in some order. */
  predicate Lists<T(==)>(list: seq<T>, elements: set<T>) {
    Distinct(list) && Elements(list) == elements
  }

  lemma {:induction false} ListOf<T>(elements: set<T>) returns (list: seq<T>)
    ensures Lists(list, elements) && forall x :: x in list <==> x in elements
  {
    if elements == {} {
      list := [];
    } else {
      var x :| x in elements;
      list := ListOf(elements - {x});
      assert x !in list;
      list := list + [x];
    }
  }

  predicate HasSuffix(s: string, suffix: string) {
    |suffix| <= |s| && s[|s| - |suffix|..] == suffix
  }

  function TrimPrefix(s: string, prefix: string): string {
    if prefix <= s then s[|prefix|..] else s
  }

  function TrimSuffix(s: string, suffix: string): string {
    if HasSuffix(s, suffix) then s[..|s| - |suffix|] else s
  }

  /** The first position of `c` at or after `from`, or `|s|`. */
  function IndexFrom(s: string, c: char, from: nat): (i: nat)
    requires from <= |s|
    ensures from <= i <= |s|
    ensures i < |s| ==> s[i] == c
    ensures c !in s[from..i]
    decreases |s| - from
  {
    if from == |s| || s[from] == c then from else IndexFrom(s, c, from + 1)
  }

  lemma {:induction false} IndexFromIs(s: string, c: char, from: nat, i: nat)
    requires from <= i <= |s|
    requires c !in s[from..i] && (i < |s| ==> s[i] == c)
    ensures IndexFrom(s, c, from) == i
    decreases |s| - from
  {
    if from < i {
      assert s[from] == s[from..i][0];
      assert s[from + 1..i] == s[from..i][1..];
      IndexFromIs(s, c, from + 1, i);
    }
  }

  /** The first position at which `sub` occurs, at or after `from`; None if there is none. */
  function FindFrom(s: string, sub: string, from: nat): (r: Option<nat>)
    requires from <= |s|
    ensures r.Some? ==> from <= r.value && r.value + |sub| <= |s| && s[r.value..r.value + |sub|] == sub
    ensures r.Some? ==> forall j :: from <= j < r.value ==> !(sub <= s[j..])
    ensures r.None? ==> forall j :: from <= j <= |s| ==> !(sub <= s[j..])
    decreases |s| - from
  {
    if sub <= s[from..] then Some(from)
    else if from == |s| then None
    else FindFrom(s, sub, from + 1)
  }

  /** `strings.Split` on a one-byte separator. */
  function Split(s: string, sep: char): (parts: seq<string>)
    ensures |parts| >= 1
  {
    var i := IndexFrom(s, sep, 0);
    if i == |s| then [s] else [s[..i]] + Split(s[i + 1..], sep)
  }

  function Join(parts: seq<string>, sep: char): string
    requires parts != []
  {
    if |parts| == 1 then parts[0] else parts[0] + [sep] + Join(parts[1..], sep)
  }

  /** The parts hold no separator, and joined again they are the string. */
  lemma {:induction false} SplitJoins(s: string, sep: char)
    ensures Join(Split(s, sep), sep) == s && forall part :: part in Split(s, sep) ==> sep !in part
  {
    var i := IndexFrom(s, sep, 0);
    assert s[0..i] == s[..i];
    if i < |s| {
      SplitJoins(s[i + 1..], sep);
      var rest := Split(s[i + 1..], sep);
      assert Split(s, sep) == [s[..i]] + rest && ([s[..i]] + rest)[1..] == rest;
      assert s == s[..i] + [sep] + s[i + 1..];
    } else {
      assert s[..i] == s;
    }
  }

  lemma SplitFirst(head: string, sep: char, rest: string)
    requires sep !in head
    ensures Split(head, sep) == [head] && Split(head + [sep] + rest, sep) == [head] + Split(rest, sep)
  {
    var n, s := |head|, head + [sep] + rest;
    assert head[0..n] == head && s[0..n] == head == s[..n] && s[n + 1..] == rest;
    IndexFromIs(head, sep, 0, n);
    IndexFromIs(s, sep, 0, n);
  }

  /** And no other parts do that: parts that are joined are split again. */
  lemma {:induction false} JoinSplits(parts: seq<string>, sep: char)
    requires parts != [] && forall part :: part in parts ==> sep !in part
    ensures Split(Join(parts, sep), sep) == parts
  {
    hide Split;
    assert parts[0] in parts;
    if |parts| == 1 {
      SplitFirst(parts[0], sep, "");
    } else {
      assert forall part :: part in parts[1..] ==> part in parts;
      JoinSplits(parts[1..], sep);
      SplitFirst(parts[0], sep, Join(parts[1..], sep));
      assert parts == [parts[0]] + parts[1..];
    }
  }

  /** The last part holds no separator, and follows one when there is a part before it. */
  lemma {:induction false} SplitLast(s: string, sep: char)
    ensures var parts := Split(s, sep);
            var last := parts[|parts| - 1];
            && sep !in last
            && (if |parts| == 1 then last == s else HasSuffix(s, [sep] + last))
  {
    var i := IndexFrom(s, sep, 0);
    if i == |s| {
      assert s[0..i] == s;
    } else {
      var rest := s[i + 1..];
      SplitLast(rest, sep);
      var tail := Split(rest, sep);
      var last := tail[|tail| - 1];
      assert Split(s, sep) == [s[..i]] + tail;
      if |tail| == 1 {
        assert s[i..] == [sep] + rest;
      } else {
        SuffixOfSuffix(s, i + 1, [sep] + last);
      }
    }
  }

  lemma SuffixOfSuffix(s: string, i: nat, suffix: string)
    requires i <= |s| && HasSuffix(s[i..], suffix)
    ensures HasSuffix(s, suffix)
  {
    assert s[|s| - |suffix|..] == s[i..][|s[i..]| - |suffix|..];
  }

  predicate IsSpace(c: char) {
    c == ' ' || '\t' <= c <= '\r'
  }

  function TrimLeft(s: string): string {
    if s != [] && IsSpace(s[0]) then TrimLeft(s[1..]) else s
  }

  function TrimRight(s: string): string {
    if s != [] && IsSpace(s[|s| - 1]) then TrimRight(s[..|s| - 1]) else s
  }

  /** `strings.TrimSpace`, for ASCII white space. */
  function TrimSpace(s: string): string {
    TrimRight(TrimLeft(s))
  }

  const SPACES := {' ', '\t', '\n', '\U{0B}', '\U{0C}', '\r'}

  predicate AllSpace(s: string) {
    forall c :: c in s ==> c in SPACES
  }

  /** White space goes at both ends, and nothing else does. */
  lemma TrimSpaceExactly(s: string) returns (left: string, right: string)
    ensures s == left + TrimSpace(s) + right && AllSpace(left) && AllSpace(right)
    ensures TrimSpace(s) != "" ==>
              TrimSpace(s)[0] !in SPACES && TrimSpace(s)[|TrimSpace(s)| - 1] !in SPACES
  {
    left := TrimLeftExactly(s);
    right := TrimRightExactly(TrimLeft(s));
    assert s == left + (TrimSpace(s) + right);
  }

  lemma {:induction false} TrimLeftExactly(s: string) returns (left: string)
    ensures s == left + TrimLeft(s) && AllSpace(left)
    ensures TrimLeft(s) != "" ==> TrimLeft(s)[0] !in SPACES
  {
    left := "";
    if s != [] && IsSpace(s[0]) {
      left := TrimLeftExactly(s[1..]);
      left := [s[0]] + left;
    }
  }

  lemma {:induction false} TrimRightExactly(s: string) returns (right: string)
    ensures s == TrimRight(s) + right && AllSpace(right)
    ensures TrimRight(s) != "" ==> TrimRight(s)[|TrimRight(s)| - 1] !in SPACES && TrimRight(s)[0] == s[0]
  {
    right := "";
    if s != [] && IsSpace(s[|s| - 1]) {
      right := TrimRightExactly(s[..|s| - 1]);
      right := right + [s[|s| - 1]];
    }
  }

  /** `strings.ReplaceAll` for a non-empty pattern: leftmost, non-overlapping. */
  function ReplaceAll(s: string, pattern: string, replacement: string): string
    requires pattern != ""
  {
    if |s| < |pattern| then s
    else if pattern <= s then replacement + ReplaceAll(s[|pattern|..], pattern, replacement)
    else [s[0]] + ReplaceAll(s[1..], pattern, replacement)
  }

  lemma ReplaceAllSkipsOne(s: string, pattern: string, replacement: string)
    requires pattern != "" && s != "" && s[0] != pattern[0]
    ensures ReplaceAll(s, pattern, replacement) == [s[0]] + ReplaceAll(s[1..], pattern, replacement)
  {
    assert s == [s[0]] + s[1..];
  }

  /** What holds no start of the pattern is passed over. */
  lemma {:induction false} ReplaceAllSkips(s: string, rest: string, pattern: string, replacement: string)
    requires pattern != "" && pattern[0] !in s
    ensures ReplaceAll(s + rest, pattern, replacement) == s + ReplaceAll(rest, pattern, replacement)
  {
    hide ReplaceAll;
    if s == "" {
      assert s + rest == rest;
    } else {
      var tail := ReplaceAll(rest, pattern, replacement);
      assert (s + rest)[1..] == s[1..] + rest;
      ReplaceAllSkips(s[1..], rest, pattern, replacement);
      ReplaceAllSkipsOne(s + rest, pattern, replacement);
      assert [s[0]] + (s[1..] + tail) == s + tail;
    }
  }

  lemma ReplaceAllHits(rest: string, pattern: string, replacement: string)
    requires pattern != ""
    ensures ReplaceAll(pattern + rest, pattern, replacement) == replacement + ReplaceAll(rest, pattern, replacement)
  {
    assert (pattern + rest)[|pattern|..] == rest;
  }

  // ---------- byte order ----------

  /** Lexicographic order on bytes, the order of Go's `<=` on strings. */
  predicate Leq(a: string, b: string) {
    a == "" || (b != "" && (a[0] < b[0] || (a[0] == b[0] && Leq(a[1..], b[1..]))))
  }

  /** One is the start of the other, or the first byte in which they differ is the smaller. */
  lemma {:induction false} LeqExactly(a: string, b: string)
    ensures Leq(a, b) <==> a <= b || exists i :: 0 <= i < |a| && i < |b| && a[..i] == b[..i] && a[i] < b[i]
  {
    if a != "" && b != "" {
      LeqExactly(a[1..], b[1..]);
      if a[0] == b[0] {
        assert a <= b <==> a[1..] <= b[1..];
        if i :| 0 <= i < |a[1..]| && i < |b[1..]| && a[1..][..i] == b[1..][..i] && a[1..][i] < b[1..][i] {
          assert a[..i + 1] == [a[0]] + a[1..][..i] && b[..i + 1] == [b[0]] + b[1..][..i];
          assert a[i + 1] < b[i + 1];
        }
        if i :| 0 <= i < |a| && i < |b| && a[..i] == b[..i] && a[i] < b[i] {
          assert a[1..][..i - 1] == a[..i][1..] && b[1..][..i - 1] == b[..i][1..];
          assert a[1..][i - 1] < b[1..][i - 1];
        }
      } else {
        assert forall i :: 0 < i < |a| && i < |b| ==> a[..i][0] == a[0] && b[..i][0] == b[0];
        assert a[..0] == b[..0];
      }
    }
  }

  lemma LeqTotal(a: string, b: string)
    ensures Leq(a, b) || Leq(b, a)
  {}

  lemma LeqAntisymmetric(a: string, b: string)
    requires Leq(a, b) && Leq(b, a)
    ensures a == b
  {
    if a == "" {
    } else {
      LeqAntisymmetric(a[1..], b[1..]);
      assert a == [a[0]] + a[1..] && b == [b[0]] + b[1..];
    }
  }

  lemma LeqTransitive(a: string, b: string, c: string)
    requires Leq(a, b) && Leq(b, c)
    ensures Leq(a, c)
  {}

  // ---------- concatenation ----------

  lemma SuffixOfConcat(a: string, b: string)
    ensures HasSuffix(a + b, b) && TrimSuffix(a + b, b) == a
  {
    assert (a + b)[|a|..] == b;
  }

  lemma SuffixSplits(s: string, suffix: string)
    requires HasSuffix(s, suffix)
    ensures TrimSuffix(s, suffix) + suffix == s
  {}
}
