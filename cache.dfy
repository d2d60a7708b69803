// The in-memory, single-slot cache for the category list
// (src/utils/dataCache.ts). The clock reading Date.now() is a parameter.

module DataCache {
  import opened Types

  /** Five minutes, in milliseconds. */
  const CacheDuration: int := 5 * 60 * 1000

  /** The two private fields of the cache; None stands for null. */
  datatype Slot = Slot(categories: Option<seq<Category>>, timestamp: Option<int>)

  const Cleared: Slot := Slot(None, None)

  /** `!this.categories || !this.categoriesTimestamp`: a null field counts as
      unset, and so does a timestamp of 0, which is falsy. A list, even an
      empty one, is truthy. */
  predicate Unset(s: Slot)
  {
    s.categories.None? || s.timestamp.None? || s.timestamp.value == 0
  }

  /** The stored list is still served at clock `now`. */
  predicate Fresh(s: Slot, now: int)
  {
    !Unset(s) && now - s.timestamp.value <= CacheDuration
  }

  /** getCategories at clock `now`: what it returns and the slot it leaves. */
  function Get(s: Slot, now: int): (r: (Option<seq<Category>>, Slot))
    ensures r.0.Some? <==> Fresh(s, now)
    ensures Fresh(s, now) ==> r.0 == s.categories && r.1 == s
    ensures Unset(s) ==> r.1 == s
    ensures !Unset(s) && !Fresh(s, now) ==> r.1 == Cleared
  {
    if Unset(s) then (None, s)
    else if now - s.timestamp.value > CacheDuration then (None, Cleared)
    else (s.categories, s)
  }

  /** setCategories at clock `now`. */
  function Set(list: seq<Category>, now: int): Slot
  {
    Slot(Some(list), Some(now))
  }

  /** The answers of successive reads at the clock readings `nows`, with no
      write in between. */
  function Reads(s: Slot, nows: seq<int>): (r: seq<Option<seq<Category>>>)
    ensures |r| == |nows|
    decreases |nows|
  {
    if nows == [] then []
    else
      var first := Get(s, nows[0]);
      [first.0] + Reads(first.1, nows[1..])
  }

  /** A stored list is still served when it is exactly five minutes old: the
      expiry test is a strict `>`. */
  lemma HitAtExactDuration(list: seq<Category>, t: int)
    requires t != 0
    ensures Get(Set(list, t), t + CacheDuration).0 == Some(list)
  {
  }

  /** A read at the instant of a write returns exactly what was written, even
      an empty list; a write at clock 0 is read as unset. */
  lemma ReadAfterSet(list: seq<Category>, now: int)
    ensures Get(Set(list, now), now).0 == (if now == 0 then None else Some(list))
  {
  }

  /** Once cleared, every later read misses and the slot stays cleared. */
  lemma {:induction false} ClearedStaysMiss(nows: seq<int>)
    ensures forall k :: 0 <= k < |nows| ==> Reads(Cleared, nows)[k] == None
  {
    if nows != [] {
      ClearedStaysMiss(nows[1..]);
      assert Get(Cleared, nows[0]) == (None, Cleared);
      var rest := Reads(Cleared, nows[1..]);
      assert Reads(Cleared, nows) == [None] + rest;
    }
  }

  /** An expired read clears the slot, and every read after it misses until
      the next write. */
  lemma ExpiredThenMiss(s: Slot, now: int, later: seq<int>)
    requires !Unset(s) && !Fresh(s, now)
    ensures forall k :: 0 <= k <= |later| ==> Reads(s, [now] + later)[k] == None
  {
    ClearedStaysMiss(later);
    assert ([now] + later)[1..] == later;
  }

  /** The cache object: one list of categories and the clock reading at which
      it was stored. */
  class Cache {
    var categories: Option<seq<Category>>
    var categoriesTimestamp: Option<int>

    /** The cache's fields as a value. */
    function State(): Slot
      reads this
    {
      Slot(categories, categoriesTimestamp)
    }

    constructor ()
      ensures State() == Cleared
    {
      categories := None;
      categoriesTimestamp := None;
    }

    /** getCategories: a miss when unset; a miss that clears both fields when
        the entry is more than five minutes old; otherwise the stored list,
        with nothing changed. */
    method GetCategories(now: int) returns (r: Option<seq<Category>>)
      modifies this
      ensures (r, State()) == Get(old(State()), now)
      ensures r.Some? <==> Fresh(old(State()), now)
      ensures r.Some? ==> r == old(categories) && unchanged(this)
    {
      if categories.None? || categoriesTimestamp.None? || categoriesTimestamp.value == 0 {
        return None;
      }
      if now - categoriesTimestamp.value > CacheDuration {
        ClearCategories();
        return None;
      }
      return categories;
    }

    /** setCategories: replaces the list wholesale and stamps the clock. */
    method SetCategories(list: seq<Category>, now: int)
      modifies this
      ensures State() == Set(list, now)
    {
      categories := Some(list);
      categoriesTimestamp := Some(now);
    }

    /** clearCategories: both fields become null; clearing twice is clearing
        once, since the new state does not depend on the old. */
    method ClearCategories()
      modifies this
      ensures State() == Cleared
    {
      categories := None;
      categoriesTimestamp := None;
    }

    /** clearAll: the same effect as clearCategories. */
    method ClearAll()
      modifies this
      ensures State() == Cleared
    {
      ClearCategories();
    }
  }
}
