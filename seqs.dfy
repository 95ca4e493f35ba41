/** Sequence and string helpers shared by the broker and the task pager:
    first-occurrence search, duplicate-freedom, and the two halves of a string
    split at the first occurrence of a delimiter, which the JavaScript code
    writes as `s.split(c)[0]` and `s.substring(s.indexOf(c) + 1)`. */
module Seqs {

  /** `s.indexOf(x)`: the first position holding `x`, or -1 when there is none. */
  function IndexOf<T(==)>(s: seq<T>, x: T): (r: int)
    ensures -1 <= r < |s|
    ensures r == -1 <==> x !in s
    ensures 0 <= r ==> s[r] == x && x !in s[..r]
  {
    if |s| == 0 then -1
    else if s[0] == x then 0
    else
      var k := IndexOf(s[1..], x);
      assert s == [s[0]] + s[1..];
      if k == -1 then -1
      else
        assert s[..k + 1] == [s[0]] + s[1..][..k];
        k + 1
  }

  /** The first occurrence is the only position that holds `x` with no `x` before it. */
  lemma IndexOfIs<T>(s: seq<T>, x: T, r: int)
    requires 0 <= r < |s| && s[r] == x && x !in s[..r]
    ensures IndexOf(s, x) == r
  {
  }

  predicate Distinct<T(==)>(s: seq<T>) {
    forall i, j :: 0 <= i < j < |s| ==> s[i] != s[j]
  }

  function Elems<T>(s: seq<T>): set<T> {
    set x | x in s
  }

  /** `s.split(c)[0]`: the longest prefix of `s` free of `c`. */
  function BeforeFirst(s: string, c: char): (r: string)
    ensures r <= s && c !in r
    ensures |r| == |s| || s[|r|] == c
  {
    var i := IndexOf(s, c);
    if i == -1 then s else s[..i]
  }

  /** `s.substring(s.indexOf(c) + 1)`: what follows the first `c`, or all of `s`. */
  function AfterFirst(s: string, c: char): (r: string)
    ensures c !in s ==> r == s
    ensures c in s ==> s == BeforeFirst(s, c) + [c] + r
  {
    s[IndexOf(s, c) + 1..]
  }

  /** Splitting at the first `c` undoes joining with `c` when the head has no `c`. */
  lemma {:induction false} SplitJoined(head: string, c: char, tail: string)
    requires c !in head
    ensures BeforeFirst(head + [c] + tail, c) == head
    ensures AfterFirst(head + [c] + tail, c) == tail
  {
    var s := head + [c] + tail;
    assert s[|head|] == c;
    assert s[..|head|] == head;
    IndexOfIs(s, c, |head|);
  }
}
