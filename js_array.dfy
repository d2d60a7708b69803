// The two JavaScript array operations the menu carousels use: slice, with
// its clamping of out-of-range and negative bounds, and reverse.

module JsArray {

  /** A slice bound as Array.prototype.slice reads it: a negative bound
      counts from the end, and the result is clamped to [0, n]. */
  function Bound(i: int, n: nat): (b: nat)
    ensures b <= n
    ensures 0 <= i <= n ==> b == i
    ensures i > n ==> b == n
    ensures i < 0 ==> b == (if n + i < 0 then 0 else n + i)
  {
    if i < 0 then (if n + i < 0 then 0 else n + i)
    else if i > n then n
    else i
  }

  /** `s.slice(start, end)` */
  function Slice<T>(s: seq<T>, start: int, end: int): seq<T>
  {
    var b, e := Bound(start, |s|), Bound(end, |s|);
    if b < e then s[b..e] else []
  }

  /** For non-negative bounds the slice is the stretch of s between them,
      cut at the end of s, and never longer than they are apart. */
  lemma SliceFromStart<T>(s: seq<T>, start: nat, end: int)
    requires start <= end
    ensures start >= |s| ==> Slice(s, start, end) == []
    ensures start < |s| ==> Slice(s, start, end) == s[start..if end < |s| then end else |s|]
    ensures |Slice(s, start, end)| <= end - start
  {
  }

  /** A negative start counts from the end: `s.slice(-k)` is the last k
      elements, or all of s when k exceeds its length. */
  lemma SliceFromEnd<T>(s: seq<T>, k: nat)
    requires k > 0
    ensures k <= |s| ==> Slice(s, -(k as int), |s|) == s[|s| - k..]
    ensures k > |s| ==> Slice(s, -(k as int), |s|) == s
  {
    assert Bound(|s|, |s|) == |s|;
    if k <= |s| {
      assert Bound(-(k as int), |s|) == |s| - k;
    } else {
      assert Bound(-(k as int), |s|) == 0;
    }
  }

  /** `s.reverse()`, as a value. */
  function Reversed<T>(s: seq<T>): (r: seq<T>)
    ensures |r| == |s|
    ensures forall i :: 0 <= i < |s| ==> r[i] == s[|s| - 1 - i]
  {
    if s == [] then [] else Reversed(s[1..]) + [s[0]]
  }

  /** Reversing twice gives the sequence back. */
  lemma ReversedTwice<T>(s: seq<T>)
    ensures Reversed(Reversed(s)) == s
  {
    var r := Reversed(Reversed(s));
    assert |r| == |s|;
    forall i | 0 <= i < |s| ensures r[i] == s[i] {
    }
  }
}
