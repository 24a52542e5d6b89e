/**
 * The few Python `str` operations the unresolver relies on: `lower()`,
 * `split(sep, maxsplit=1)`, `rsplit(sep, maxsplit=1)`, `startswith`,
 * `endswith` and the substring test `needle in hay`.
 */
module Strings {
  import opened Wrappers

  predicate IsUpperChar(c: char) {
    'A' <= c <= 'Z'
  }

  /** ASCII lower-casing of one character. */
  function LowerChar(c: char): (r: char)
    ensures !IsUpperChar(r)
    ensures !IsUpperChar(c) ==> r == c
  {
    if IsUpperChar(c) then (c as int + 32) as char else c
  }

  /** No upper-case ASCII letter occurs in `s`. */
  predicate IsLower(s: string) {
    forall i :: 0 <= i < |s| ==> !IsUpperChar(s[i])
  }

  /** `s.lower()`, restricted to ASCII letters. */
  function Lower(s: string): (r: string)
    ensures |r| == |s|
    ensures forall i :: 0 <= i < |s| ==> r[i] == LowerChar(s[i])
  {
    if s == [] then [] else [LowerChar(s[0])] + Lower(s[1..])
  }

  lemma LowerIsLower(s: string)
    ensures IsLower(Lower(s))
  {
  }

  /** Lower-casing leaves a string without upper-case letters unchanged. */
  lemma LowerOfLower(s: string)
    requires IsLower(s)
    ensures Lower(s) == s
  {
  }

  predicate StartsWith(s: string, prefix: string) {
    |prefix| <= |s| && s[..|prefix|] == prefix
  }

  predicate EndsWith(s: string, suffix: string) {
    |suffix| <= |s| && s[|s| - |suffix|..] == suffix
  }

  /** `needle` occurs in `hay` starting at index `i`. */
  predicate OccursAt(hay: string, needle: string, i: int) {
    0 <= i && i + |needle| <= |hay| && hay[i..i + |needle|] == needle
  }

  /** Python's `needle in hay` on strings, by scanning `hay` from the left. */
  predicate Contains(hay: string, needle: string): (r: bool)
    ensures r ==> |needle| <= |hay|
    ensures needle == [] ==> r
    decreases |hay|
  {
    StartsWith(hay, needle) || (|hay| > 0 && Contains(hay[1..], needle))
  }

  /** The scan agrees with the definition of a substring: some occurrence exists. */
  lemma {:induction false} ContainsIff(hay: string, needle: string)
    ensures Contains(hay, needle) <==> exists i :: OccursAt(hay, needle, i)
    decreases |hay|
  {
    if Contains(hay, needle) {
      if StartsWith(hay, needle) {
        assert OccursAt(hay, needle, 0);
      } else {
        ContainsIff(hay[1..], needle);
        var j :| OccursAt(hay[1..], needle, j);
        assert hay[1..][j..j + |needle|] == hay[j + 1..j + 1 + |needle|];
        assert OccursAt(hay, needle, j + 1);
      }
    }
    if exists i :: OccursAt(hay, needle, i) {
      var i :| OccursAt(hay, needle, i);
      if i == 0 {
        assert StartsWith(hay, needle);
      } else {
        assert hay[1..][i - 1..i - 1 + |needle|] == hay[i..i + |needle|];
        assert OccursAt(hay[1..], needle, i - 1);
        ContainsIff(hay[1..], needle);
      }
    }
  }

  /** An occurrence at a known index makes `Contains` true. */
  lemma ContainsAt(hay: string, needle: string, i: int)
    requires OccursAt(hay, needle, i)
    ensures Contains(hay, needle)
  {
    ContainsIff(hay, needle);
  }

  /**
   * `s.split(sep, maxsplit=1)`: the part before the first `sep` and, when
   * `sep` occurs at all, the part after it.
   */
  function SplitFirst(s: string, sep: char): (r: (string, Option<string>))
    ensures sep !in r.0
    ensures r.1.None? <==> sep !in s
    ensures r.1.None? ==> r.0 == s
    ensures r.1.Some? ==> s == r.0 + [sep] + r.1.value
    decreases |s|
  {
    if s == [] then ("", None)
    else if s[0] == sep then ("", Some(s[1..]))
    else
      var rest := SplitFirst(s[1..], sep);
      ([s[0]] + rest.0, rest.1)
  }

  /** A string cut at a separator its head does not contain splits back into that head and tail. */
  lemma {:induction false} SplitFirstAt(head: string, sep: char, tail: string)
    requires sep !in head
    ensures SplitFirst(head + [sep] + tail, sep) == (head, Some(tail))
    decreases |head|
  {
    var s := head + [sep] + tail;
    if head == [] {
      assert s == [sep] + tail;
    } else {
      assert s[1..] == head[1..] + [sep] + tail;
      SplitFirstAt(head[1..], sep, tail);
      assert [head[0]] + head[1..] == head;
    }
  }

  /** The largest index `j <= k` at which `sep` occurs in `s`, if any. */
  function LastOccurrence(s: string, sep: string, k: int): (r: Option<nat>)
    ensures r.Some? ==> r.value <= k && OccursAt(s, sep, r.value)
    ensures r.Some? ==> forall j :: r.value < j <= k ==> !OccursAt(s, sep, j)
    ensures r.None? ==> forall j :: j <= k ==> !OccursAt(s, sep, j)
    decreases k + 1
  {
    if k < 0 then None
    else if OccursAt(s, sep, k) then Some(k)
    else LastOccurrence(s, sep, k - 1)
  }

  /**
   * `s.rsplit(sep, maxsplit=1)` when it yields two parts: the text before and
   * after the LAST occurrence of `sep`; `None` when `sep` does not occur
   * (Python then returns one part, and unpacking it into two fails).
   */
  function RSplitOnce(s: string, sep: string): (r: Option<(string, string)>)
    ensures r.None? <==> !Contains(s, sep)
    ensures r.Some? ==> s == r.value.0 + sep + r.value.1
    ensures r.Some? ==> forall j :: |r.value.0| < j ==> !OccursAt(s, sep, j)
  {
    ContainsIff(s, sep);
    var k := LastOccurrence(s, sep, |s| - |sep|);
    if k.None? then None
    else
      var i := k.value;
      assert s == s[..i] + s[i..i + |sep|] + s[i + |sep|..];
      Some((s[..i], s[i + |sep|..]))
  }

  /** Splitting at the last separator recovers the parts it was built from. */
  lemma RSplitOnceAt(head: string, sep: string, tail: string)
    requires forall j :: |head| < j ==> !OccursAt(head + sep + tail, sep, j)
    ensures RSplitOnce(head + sep + tail, sep) == Some((head, tail))
  {
    var s := head + sep + tail;
    assert s[|head|..|head| + |sep|] == sep;
    assert OccursAt(s, sep, |head|);
    ContainsAt(s, sep, |head|);
    var r := RSplitOnce(s, sep);
    var i := |r.value.0|;
    assert s[..i] == r.value.0;
    assert OccursAt(s, sep, i) by {
      assert s[i..i + |sep|] == (r.value.0 + sep + r.value.1)[i..i + |sep|] == sep;
    }
    assert i == |head|;
    assert r.value.0 == s[..|head|] == head;
    assert r.value.1 == s[|head| + |sep|..] == tail;
  }
}
