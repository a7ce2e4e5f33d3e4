/**
 * The few Python `str` operations the handler and the URL helpers rely on:
 * `startswith`, `endswith`, `partition`, `rpartition` and `find` over a set
 * of characters.
 */
module Strings {

  predicate StartsWith(s: string, prefix: string) {
    |prefix| <= |s| && s[..|prefix|] == prefix
  }

  predicate EndsWith(s: string, suffix: string) {
    |suffix| <= |s| && s[|s| - |suffix|..] == suffix
  }

  /** The three parts `str.partition` / `str.rpartition` return; `found` says whether the separator was there. */
  datatype Parts = Parts(head: string, found: bool, tail: string)

  /** `s.partition(sep)`: split at the FIRST occurrence of `sep`, or `(s, "", "")` when there is none. */
  function Partition(s: string, sep: char): (p: Parts)
    ensures p.found ==> s == p.head + [sep] + p.tail && sep !in p.head
    ensures !p.found ==> p == Parts(s, false, "") && sep !in s
  {
    if s == [] then Parts("", false, "")
    else if s[0] == sep then Parts("", true, s[1..])
    else
      var p := Partition(s[1..], sep);
      assert s == [s[0]] + s[1..];
      Parts([s[0]] + p.head, p.found, p.tail)
  }

  /** `s.rpartition(sep)`: split at the LAST occurrence of `sep`, or `("", "", s)` when there is none. */
  function RPartition(s: string, sep: char): (p: Parts)
    ensures p.found ==> s == p.head + [sep] + p.tail && sep !in p.tail
    ensures !p.found ==> p == Parts("", false, s) && sep !in s
  {
    if s == [] then Parts("", false, "")
    else if s[|s| - 1] == sep then Parts(s[..|s| - 1], true, "")
    else
      var p := RPartition(s[..|s| - 1], sep);
      assert s == s[..|s| - 1] + [s[|s| - 1]];
      Parts(p.head, p.found, p.tail + [s[|s| - 1]])
  }

  /** The index of the first character of `s` that is in `cs`, or `|s|` when there is none. */
  function FirstIndexOf(s: string, cs: set<char>): (i: nat)
    ensures i <= |s|
    ensures i < |s| ==> s[i] in cs
    ensures forall k :: 0 <= k < i ==> s[k] !in cs
  {
    if s == [] || s[0] in cs then 0 else 1 + FirstIndexOf(s[1..], cs)
  }

  /** The contract of Partition pins its result down: the first separator is where it splits. */
  lemma PartitionAt(a: string, sep: char, b: string)
    requires sep !in a
    ensures Partition(a + [sep] + b, sep) == Parts(a, true, b)
  {
    var s := a + [sep] + b;
    var p := Partition(s, sep);
    assert s[|a|] == sep;
    assert forall k :: 0 <= k < |a| ==> s[k] == a[k];
    assert p.found && s[|p.head|] == sep;
    assert forall k :: 0 <= k < |p.head| ==> s[k] == p.head[k];
    assert p.head == s[..|a|] == a;
    assert p.tail == s[|a| + 1..] == b;
  }

  /** The contract of RPartition pins its result down: the last separator is where it splits. */
  lemma {:induction false} RPartitionAt(a: string, sep: char, b: string)
    requires sep !in b
    ensures RPartition(a + [sep] + b, sep) == Parts(a, true, b)
  {
    var s := a + [sep] + b;
    if b == [] {
      assert s[..|s| - 1] == a;
    } else {
      var init, last := b[..|b| - 1], b[|b| - 1];
      assert b == init + [last];
      assert s[|s| - 1] == last != sep;
      assert s[..|s| - 1] == a + [sep] + init;
      RPartitionAt(a, sep, init);
    }
  }

  /** A string without the separator is returned whole as the head. */
  lemma PartitionAbsent(s: string, sep: char)
    requires sep !in s
    ensures Partition(s, sep) == Parts(s, false, "")
  {
  }

  /** A string without the separator is returned whole as the tail of `rpartition`. */
  lemma RPartitionAbsent(s: string, sep: char)
    requires sep !in s
    ensures RPartition(s, sep) == Parts("", false, s)
  {
  }

  /** The contract of FirstIndexOf pins its result down. */
  lemma FirstIndexOfAt(a: string, b: string, cs: set<char>)
    requires forall k :: 0 <= k < |a| ==> a[k] !in cs
    requires b == [] || b[0] in cs
    ensures FirstIndexOf(a + b, cs) == |a|
  {
    var s := a + b;
    assert forall k :: 0 <= k < |a| ==> s[k] == a[k];
    assert |a| < |s| ==> s[|a|] == b[0];
  }
}
