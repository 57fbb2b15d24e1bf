/**
 * The array operations the services use on their in-memory lists:
 * `findIndex`, `find` and `splice(i, 1)`.
 */
module Seqs {
  import opened Wrappers

  /** `s.findIndex(p)`: the position of the first element satisfying `p`, or -1. */
  function FirstIndex<T>(s: seq<T>, p: T -> bool): (r: int)
    ensures -1 <= r < |s|
    ensures r >= 0 ==> p(s[r])
    ensures forall k :: 0 <= k < |s| && (r < 0 || k < r) ==> !p(s[k])
  {
    if |s| == 0 then -1
    else if p(s[0]) then 0
    else
      var r := FirstIndex(s[1..], p);
      if r < 0 then -1 else r + 1
  }

  /** The two postconditions of FirstIndex determine its result. */
  lemma FirstIndexUnique<T>(s: seq<T>, p: T -> bool, i: int)
    requires -1 <= i < |s|
    requires i >= 0 ==> p(s[i])
    requires forall k :: 0 <= k < |s| && (i < 0 || k < i) ==> !p(s[k])
    ensures i == FirstIndex(s, p)
  {
  }

  /** The linear scan behind `findIndex`. */
  method FindIndex<T>(s: seq<T>, p: T -> bool) returns (i: int)
    ensures i == FirstIndex(s, p)
  {
    i := 0;
    while i < |s|
      invariant 0 <= i <= |s|
      invariant forall k :: 0 <= k < i ==> !p(s[k])
    {
      if p(s[i]) {
        FirstIndexUnique(s, p, i);
        return;
      }
      i := i + 1;
    }
    i := -1;
    FirstIndexUnique(s, p, i);
  }

  /** `s.find(p)`: the first element satisfying `p`, if any. */
  function Find<T>(s: seq<T>, p: T -> bool): (r: Option<T>)
    ensures r.None? <==> forall k :: 0 <= k < |s| ==> !p(s[k])
    ensures r.Some? ==> p(r.value) && r.value in s
    ensures r.Some? ==> exists i :: 0 <= i < |s| && s[i] == r.value && forall k :: 0 <= k < i ==> !p(s[k])
  {
    var i := FirstIndex(s, p);
    if i < 0 then None else Some(s[i])
  }

  /** `s.splice(i, 1)` on a copy: every element but the one at `i`, in order. */
  function RemoveAt<T>(s: seq<T>, i: int): (r: seq<T>)
    requires 0 <= i < |s|
    ensures |r| == |s| - 1
    ensures forall k :: 0 <= k < i ==> r[k] == s[k]
    ensures forall k :: i <= k < |r| ==> r[k] == s[k + 1]
  {
    s[..i] + s[i + 1..]
  }

  /** Every element of `RemoveAt(s, i)` was an element of `s`. */
  lemma RemoveAtSubset<T>(s: seq<T>, i: int, x: T)
    requires 0 <= i < |s|
    requires x in RemoveAt(s, i)
    ensures x in s
  {
    var r := RemoveAt(s, i);
    var k :| 0 <= k < |r| && r[k] == x;
    if k < i { assert s[k] == x; } else { assert s[k + 1] == x; }
  }

  /**
   * Removing an element that fails `p` does not change which element is the first to
   * satisfy it.
   */
  lemma {:induction false} FirstIndexAfterRemove<T>(s: seq<T>, e: int, p: T -> bool)
    requires 0 <= e < |s| && !p(s[e])
    ensures var r := RemoveAt(s, e);
      var m := FirstIndex(r, p);
      && (m < 0 <==> forall k :: 0 <= k < |s| ==> !p(s[k]))
      && (m >= 0 ==> exists j :: 0 <= j < |s| && s[j] == r[m] && forall k :: 0 <= k < j ==> !p(s[k]))
  {
    var r := RemoveAt(s, e);
    var m := FirstIndex(r, p);
    if m < 0 {
      forall k | 0 <= k < |s|
        ensures !p(s[k])
      {
        if k < e {
          assert s[k] == r[k];
        } else if k > e {
          assert s[k] == r[k - 1];
        }
      }
    } else {
      var j := if m < e then m else m + 1;
      assert s[j] == r[m];
      forall k | 0 <= k < j
        ensures !p(s[k])
      {
        if k < e {
          assert s[k] == r[k];
        } else if k > e {
          assert s[k] == r[k - 1];
        }
      }
    }
  }

  /** A non-empty sequence, alone and followed by another, split at its first element. */
  lemma ConsAppend<T>(a: seq<T>, b: seq<T>)
    requires a != []
    ensures a == [a[0]] + a[1..] && a + b == [a[0]] + (a[1..] + b)
  {
  }

  lemma AppendAssociative<T>(x: seq<T>, y: seq<T>, z: seq<T>)
    ensures x + (y + z) == (x + y) + z
  {
  }

  /** `s.reverse()` on a copy. */
  function Reverse<T>(s: seq<T>): (r: seq<T>)
    ensures |r| == |s|
    ensures forall i :: 0 <= i < |s| ==> r[i] == s[|s| - 1 - i]
  {
    if s == [] then [] else Reverse(s[1..]) + [s[0]]
  }

  /** `findIndex` followed by `splice` when found: drops the first element satisfying `p`. */
  function RemoveFirst<T>(s: seq<T>, p: T -> bool): seq<T>
  {
    var i := FirstIndex(s, p);
    if i < 0 then s else RemoveAt(s, i)
  }

  /**
   * Removing the first element satisfying `q`, when that element fails `p`, leaves the
   * first element satisfying `p` where the original sequence has it.
   */
  lemma {:induction false} FirstIndexAfterRemoveFirst<T>(s: seq<T>, q: T -> bool, p: T -> bool)
    requires FirstIndex(s, q) >= 0 ==> !p(s[FirstIndex(s, q)])
    ensures var r := RemoveFirst(s, q);
      var m := FirstIndex(r, p);
      && (m < 0 <==> forall k :: 0 <= k < |s| ==> !p(s[k]))
      && (m >= 0 ==> exists j :: 0 <= j < |s| && s[j] == r[m] && forall k :: 0 <= k < j ==> !p(s[k]))
  {
    var e := FirstIndex(s, q);
    if e < 0 {
      var m := FirstIndex(s, p);
      if m >= 0 {
        assert s[m] == RemoveFirst(s, q)[m];
      }
    } else {
      FirstIndexAfterRemove(s, e, p);
    }
  }
}
