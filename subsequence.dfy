/**
 Keeping the elements of a sequence that a boolean mask selects, in order.
 This is what the record sink receives from the emitter pass: the records it
 decided to write, in stream order.
 */
module Subsequence {

  /** The elements of `s` whose mask bit is set, in their original order. */
  function Select<T>(s: seq<T>, mask: seq<bool>): seq<T>
    requires |mask| == |s|
    decreases |s|
  {
    if |s| == 0 then []
    else Select(s[..|s| - 1], mask[..|s| - 1]) + (if mask[|s| - 1] then [s[|s| - 1]] else [])
  }

  /** The positions whose mask bit is set, in increasing order. */
  function Indices(mask: seq<bool>): seq<nat>
    decreases |mask|
  {
    if |mask| == 0 then []
    else Indices(mask[..|mask| - 1]) + (if mask[|mask| - 1] then [|mask| - 1] else [])
  }

  /**
   `out` is `s` read at the strictly increasing positions `idx`: the same
   order, no element twice.
   */
  ghost predicate SubsequenceAt<T>(out: seq<T>, s: seq<T>, idx: seq<nat>)
  {
    && |idx| == |out|
    && (forall k :: 0 <= k < |idx| ==> idx[k] < |s| && out[k] == s[idx[k]])
    && (forall j, k :: 0 <= j < k < |idx| ==> idx[j] < idx[k])
  }

  /**
   `Select` keeps exactly the positions whose bit is set, in order and
   without repetition, so it is never longer than its input.
   */
  lemma {:induction false} SelectIsSubsequence<T>(s: seq<T>, mask: seq<bool>)
    requires |mask| == |s|
    ensures SubsequenceAt(Select(s, mask), s, Indices(mask))
    ensures forall i :: 0 <= i < |s| ==> (i in Indices(mask) <==> mask[i])
    ensures |Select(s, mask)| <= |s|
    decreases |s|
  {
    if |s| > 0 {
      var n := |s| - 1;
      SelectIsSubsequence(s[..n], mask[..n]);
      var prefix := Indices(mask[..n]);
      assert forall k :: 0 <= k < |prefix| ==> prefix[k] < n;
      assert n !in prefix;
      forall i | 0 <= i < n
        ensures mask[..n][i] == mask[i]
      {
      }
    }
  }

  /** With every bit clear nothing is kept. */
  lemma SelectNone<T>(s: seq<T>, mask: seq<bool>)
    requires |mask| == |s|
    requires forall i :: 0 <= i < |mask| ==> !mask[i]
    ensures Select(s, mask) == []
  {
    SelectIsSubsequence(s, mask);
  }

  /** With every bit set everything is kept. */
  lemma {:induction false} SelectAll<T>(s: seq<T>, mask: seq<bool>)
    requires |mask| == |s|
    requires forall i :: 0 <= i < |mask| ==> mask[i]
    ensures Select(s, mask) == s
    decreases |s|
  {
    if |s| > 0 {
      var n := |s| - 1;
      SelectAll(s[..n], mask[..n]);
      assert s[..n] + [s[n]] == s;
    }
  }
}
