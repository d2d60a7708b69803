// Array.prototype.sort with a comparator, as the menu site uses it to order
// items and categories: an in-place, stable sort. Stability is what the
// language guarantees; it is modelled by insertion sort, which keeps elements
// that compare equal in their original order.

module Sorting {

  /** `leq` is a total preorder: what a consistent comparator induces. */
  ghost predicate TotalPreorder<T(!new)>(leq: (T, T) -> bool)
  {
    && (forall a, b :: leq(a, b) || leq(b, a))
    && (forall a, b, c :: leq(a, b) && leq(b, c) ==> leq(a, c))
  }

  predicate SortedBy<T>(s: seq<T>, leq: (T, T) -> bool)
  {
    forall i, j :: 0 <= i < j < |s| ==> leq(s[i], s[j])
  }

  /** s with x inserted after every trailing element that x is not below. */
  function Insert<T>(s: seq<T>, x: T, leq: (T, T) -> bool): seq<T>
  {
    if s == [] then [x]
    else if leq(s[|s| - 1], x) then s + [x]
    else Insert(s[..|s| - 1], x, leq) + [s[|s| - 1]]
  }

  /** Inserting adds x and loses nothing. */
  lemma {:induction false} InsertPermutes<T>(s: seq<T>, x: T, leq: (T, T) -> bool)
    ensures multiset(Insert(s, x, leq)) == multiset(s) + multiset{x}
  {
    if s != [] && !leq(s[|s| - 1], x) {
      InsertPermutes(s[..|s| - 1], x, leq);
      assert s == s[..|s| - 1] + [s[|s| - 1]];
    }
  }

  /** The order a stable comparator sort produces. */
  function InsertionSort<T>(s: seq<T>, leq: (T, T) -> bool): seq<T>
  {
    if s == [] then []
    else Insert(InsertionSort(s[..|s| - 1], leq), s[|s| - 1], leq)
  }

  /** Sorting is a permutation. */
  lemma {:induction false} InsertionSortPermutes<T>(s: seq<T>, leq: (T, T) -> bool)
    ensures multiset(InsertionSort(s, leq)) == multiset(s)
  {
    if s != [] {
      var init, last := s[..|s| - 1], s[|s| - 1];
      var sorted := InsertionSort(init, leq);
      calc {
        multiset(InsertionSort(s, leq));
        multiset(Insert(sorted, last, leq));
        { InsertPermutes(sorted, last, leq); }
        multiset(sorted) + multiset{last};
        { InsertionSortPermutes(init, leq); }
        multiset(init) + multiset{last};
        { assert s == init + [last]; }
        multiset(s);
      }
    }
  }

  lemma {:induction false} InsertSorted<T(!new)>(s: seq<T>, x: T, leq: (T, T) -> bool)
    requires TotalPreorder(leq)
    requires SortedBy(s, leq)
    ensures SortedBy(Insert(s, x, leq), leq)
  {
    if s != [] && !leq(s[|s| - 1], x) {
      var init := s[..|s| - 1];
      var last := s[|s| - 1];
      InsertSorted(init, x, leq);
      var r := Insert(init, x, leq);
      InsertPermutes(init, x, leq);
      assert leq(x, last);
      forall y | y in multiset(r) ensures leq(y, last) {
        if y != x {
          assert y in multiset(init);
          var k :| 0 <= k < |init| && init[k] == y;
          assert s[k] == y;
        }
      }
      forall i, j | 0 <= i < j < |r| + 1 ensures leq((r + [last])[i], (r + [last])[j]) {
        if j == |r| {
          assert r[i] in multiset(r);
        }
      }
    }
  }

  /** The result of a comparator sort is ordered. */
  lemma {:induction false} InsertionSortSorted<T(!new)>(s: seq<T>, leq: (T, T) -> bool)
    requires TotalPreorder(leq)
    ensures SortedBy(InsertionSort(s, leq), leq)
  {
    if s != [] {
      InsertionSortSorted(s[..|s| - 1], leq);
      InsertSorted(InsertionSort(s[..|s| - 1], leq), s[|s| - 1], leq);
    }
  }

  /** Inserting x into s is inserting it into the part of s it is not below,
      followed by the part it is below. */
  lemma {:induction false} InsertSplit<T>(s: seq<T>, j: nat, x: T, leq: (T, T) -> bool)
    requires j <= |s|
    requires forall k :: j <= k < |s| ==> !leq(s[k], x)
    ensures Insert(s, x, leq) == Insert(s[..j], x, leq) + s[j..]
  {
    if j < |s| {
      var t, last := s[..|s| - 1], s[|s| - 1];
      assert !leq(last, x);
      assert Insert(s, x, leq) == Insert(t, x, leq) + [last];
      assert t[..j] == s[..j];
      InsertSplit(t, j, x, leq);
      assert t[j..] + [last] == s[j..];
    } else {
      assert s[..j] == s;
    }
  }

  /** x goes to the end when the last element is not above it. */
  lemma InsertAtEnd<T>(s: seq<T>, x: T, leq: (T, T) -> bool)
    requires s == [] || leq(s[|s| - 1], x)
    ensures Insert(s, x, leq) == s + [x]
  {
  }

  /** After the shifting loop of InsertAt: the first |s| + 1 elements hold s
      with x inserted. */
  lemma InsertAtDone<T>(s: seq<T>, x: T, j: nat, b: seq<T>, leq: (T, T) -> bool)
    requires j <= |s| < |b|
    requires b[..j] == s[..j] && b[j] == x && b[j + 1..|s| + 1] == s[j..]
    requires j == 0 || leq(s[j - 1], x)
    requires forall k :: j <= k < |s| ==> !leq(s[k], x)
    ensures b[..|s| + 1] == Insert(s, x, leq)
  {
    InsertSplit(s, j, x, leq);
    var front := s[..j];
    assert j > 0 ==> front[j - 1] == s[j - 1];
    InsertAtEnd(front, x, leq);
    var whole := b[..|s| + 1];
    assert whole == b[..j] + [x] + b[j + 1..|s| + 1] by {
      assert |whole| == |b[..j] + [x] + b[j + 1..|s| + 1]|;
      forall k | 0 <= k < |whole|
        ensures whole[k] == (b[..j] + [x] + b[j + 1..|s| + 1])[k]
      {
        if k < j {
        } else if k == j {
        } else {
          assert whole[k] == b[k] == b[j + 1..|s| + 1][k - j - 1];
        }
      }
    }
  }

  /** One step of the outer loop of Sort. */
  lemma SortStep<T>(s0: seq<T>, pre: seq<T>, post: seq<T>, i: nat, leq: (T, T) -> bool)
    requires i < |s0| == |pre| == |post|
    requires pre[..i] == InsertionSort(s0[..i], leq) && pre[i..] == s0[i..]
    requires post[..i + 1] == Insert(pre[..i], pre[i], leq) && post[i + 1..] == pre[i + 1..]
    ensures post[..i + 1] == InsertionSort(s0[..i + 1], leq) && post[i + 1..] == s0[i + 1..]
  {
    assert pre[i..][0] == s0[i..][0];
    assert pre[i + 1..] == pre[i..][1..];
    assert s0[i + 1..] == s0[i..][1..];
    assert s0[..i + 1][..i] == s0[..i];
  }

  /** Moves a[i] left past the elements of a[..i] it is below: one step of
      insertion sort. */
  method InsertAt<T>(a: array<T>, i: nat, leq: (T, T) -> bool)
    requires i < a.Length
    modifies a
    ensures a[..i + 1] == Insert(old(a[..i]), old(a[i]), leq)
    ensures a[i + 1..] == old(a[i + 1..])
  {
    var x := a[i];
    ghost var s := a[..i];
    var j := i;
    while j > 0 && !leq(a[j - 1], x)
      invariant 0 <= j <= i
      invariant a[..j] == s[..j]
      invariant a[j + 1..i + 1] == s[j..]
      invariant a[i + 1..] == old(a[i + 1..])
      invariant forall k :: j <= k < i ==> !leq(s[k], x)
    {
      a[j] := a[j - 1];
      j := j - 1;
    }
    a[j] := x;
    InsertAtDone(s, x, j, a[..], leq);
  }

  /** Sorts a in place, stably, with respect to leq. */
  method Sort<T>(a: array<T>, leq: (T, T) -> bool)
    modifies a
    ensures a[..] == InsertionSort(old(a[..]), leq)
  {
    ghost var s0 := a[..];
    var i := 0;
    while i < a.Length
      invariant 0 <= i <= a.Length
      invariant a[..i] == InsertionSort(s0[..i], leq)
      invariant a[i..] == s0[i..]
    {
      ghost var pre := a[..];
      InsertAt(a, i, leq);
      SortStep(s0, pre, a[..], i, leq);
      i := i + 1;
    }
    assert a[..] == a[..a.Length];
    assert s0 == s0[..a.Length];
  }
}
