// The ratings collection (src/services/firebase/ratings.ts): storing a
// submitted rating, listing the ratings newest first, deleting one, and the
// statistics the admin page shows. The clock Timestamp.now() / new Date() and
// navigator.userAgent are parameters; how each call to the store ends is an
// Outcome parameter.

module Ratings {
  import opened Types
  import opened Sorting
  import FirestoreService

  const SubmitFailed := "Failed to submit rating"
  const FetchFailed := "Failed to fetch ratings"
  const DeleteFailed := "Failed to delete rating"
  const StatsFailed := "Failed to calculate rating statistics"

  /** One stored rating document, without its id. Documents written by older
      versions of the page may lack createdAt or userAgent. */
  datatype RatingDoc = RatingDoc(rating: int, feedback: string, createdAt: Stamp, userAgent: Option<string>)

  /** What getRatingStats returns. */
  datatype Stats = Stats(total: nat, average: real, breakdown: map<int, nat>)

  /** The document submitRating writes: the two input fields, the clock and
      the browser's user agent, and nothing else. */
  function Submitted(input: RatingInput, now: int, userAgent: string): (d: RatingDoc)
    ensures d.rating == input.rating && d.feedback == input.feedback
    ensures d.createdAt.Timestamp? && d.createdAt.Instant() == Some(now)
    ensures d.userAgent == Some(userAgent)
  {
    RatingDoc(input.rating, input.feedback, Timestamp(now), Some(userAgent))
  }

  /** The record getAllRatings makes of one document: its id and fields, with
      the stored instant as a Date, or the current clock when there is none. */
  function ToRating(id: string, d: RatingDoc, now: int): (r: Rating)
    ensures r.id == id && r.rating == d.rating && r.feedback == d.feedback
    ensures r.userAgent == d.userAgent
    ensures d.createdAt.Instant().Some? ==> r.createdAt == d.createdAt.Instant().value
    ensures d.createdAt.Missing? ==> r.createdAt == now
  {
    Rating(id, d.rating, d.feedback,
      if d.createdAt.Instant().Some? then d.createdAt.Instant().value else now,
      d.userAgent)
  }

  /** A rating read back right after it was submitted is the submitted rating. */
  lemma SubmittedReadBack(id: string, input: RatingInput, now: int, later: int, userAgent: string)
    ensures ToRating(id, Submitted(input, now, userAgent), later)
         == Rating(id, input.rating, input.feedback, now, Some(userAgent))
  {
  }

  /** orderBy('createdAt', 'desc') as a comparator: a is listed no later than b. */
  function NewerFirst(a: Rating, b: Rating): bool
  {
    a.createdAt >= b.createdAt
  }

  lemma NewerFirstTotal()
    ensures TotalPreorder(NewerFirst)
  {
  }

  /** A stored document the createdAt query returns: ordering by a field
      leaves out the documents that lack it. */
  predicate Listed(d: RatingDoc)
  {
    d.createdAt.Instant().Some?
  }

  /** The rating values of a list, in order. */
  function Values(rs: seq<Rating>): (vs: seq<int>)
    ensures |vs| == |rs|
    ensures forall i :: 0 <= i < |rs| ==> vs[i] == rs[i].rating
  {
    seq(|rs|, i requires 0 <= i < |rs| => rs[i].rating)
  }

  /** How many ratings of the list have value v. */
  function Count(rs: seq<Rating>, v: int): nat
  {
    if rs == [] then 0
    else Count(rs[..|rs| - 1], v) + (if rs[|rs| - 1].rating == v then 1 else 0)
  }

  /** The sum of the rating values. */
  function Sum(rs: seq<Rating>): int
  {
    if rs == [] then 0 else Sum(rs[..|rs| - 1]) + rs[|rs| - 1].rating
  }

  /** The star values the breakdown always lists. */
  const Scale: set<int> := {1, 2, 3, 4, 5}

  /** The breakdown getRatingStats reports: a key for each of 1 to 5 and for
      every value that occurs, mapped to the number of ratings with it. */
  function Breakdown(rs: seq<Rating>): map<int, nat>
  {
    map v | v in Scale + set i | 0 <= i < |rs| :: rs[i].rating :: Count(rs, v)
  }

  /** The mean rating, and 0 for no ratings. */
  function Average(rs: seq<Rating>): real
  {
    if |rs| > 0 then Sum(rs) as real / |rs| as real else 0.0
  }

  /** Count is the multiplicity of v among the rating values. */
  lemma {:induction false} CountIsMultiplicity(rs: seq<Rating>, v: int)
    ensures Count(rs, v) == multiset(Values(rs))[v]
  {
    if rs != [] {
      var init := rs[..|rs| - 1];
      CountIsMultiplicity(init, v);
      assert Values(rs) == Values(init) + [rs[|rs| - 1].rating];
    }
  }

  /** The breakdown counts each value by its multiplicity among the rating
      values, and has a key for every star value and every value present. */
  lemma BreakdownIsMultiplicity(rs: seq<Rating>)
    ensures forall v :: v in Breakdown(rs) <==> v in Scale || v in Values(rs)
    ensures forall v :: v in Breakdown(rs) ==> Breakdown(rs)[v] == multiset(Values(rs))[v]
  {
    forall v | v in Breakdown(rs)
      ensures Breakdown(rs)[v] == multiset(Values(rs))[v]
    {
      CountIsMultiplicity(rs, v);
    }
    forall v | v in Values(rs)
      ensures v in Breakdown(rs)
    {
      var i :| 0 <= i < |rs| && Values(rs)[i] == v;
      assert rs[i].rating == v;
    }
  }

  /** When every rating is a star value, the five breakdown counts add up to
      the total. */
  lemma {:induction false} ScaleCountsAddUp(rs: seq<Rating>)
    requires forall i :: 0 <= i < |rs| ==> rs[i].rating in Scale
    ensures Count(rs, 1) + Count(rs, 2) + Count(rs, 3) + Count(rs, 4) + Count(rs, 5) == |rs|
  {
    if rs != [] {
      ScaleCountsAddUp(rs[..|rs| - 1]);
    }
  }

  /** The same, read off the breakdown map. */
  lemma BreakdownAddsUp(rs: seq<Rating>)
    requires forall i :: 0 <= i < |rs| ==> rs[i].rating in Scale
    ensures Scale <= Breakdown(rs).Keys
    ensures var b := Breakdown(rs); b[1] + b[2] + b[3] + b[4] + b[5] == |rs|
    ensures forall v :: v in Breakdown(rs) <==> v in Scale
  {
    ScaleCountsAddUp(rs);
  }

  /** A value that is not a star value gets its own key. */
  lemma OutsideValueGetsKey(rs: seq<Rating>, i: nat)
    requires i < |rs|
    ensures rs[i].rating in Breakdown(rs) && Breakdown(rs)[rs[i].rating] >= 1
  {
    CountIsMultiplicity(rs, rs[i].rating);
    assert Values(rs)[i] == rs[i].rating;
  }

  lemma {:induction false} SumBounds(rs: seq<Rating>)
    requires forall i :: 0 <= i < |rs| ==> rs[i].rating in Scale
    ensures |rs| <= Sum(rs) <= 5 * |rs|
  {
    if rs != [] {
      SumBounds(rs[..|rs| - 1]);
    }
  }

  /** With star values only, the average of a non-empty list lies between 1
      and 5. */
  lemma AverageInScale(rs: seq<Rating>)
    requires forall i :: 0 <= i < |rs| ==> rs[i].rating in Scale
    ensures |rs| > 0 ==> 1.0 <= Average(rs) <= 5.0
    ensures |rs| == 0 ==> Average(rs) == 0.0
  {
    if |rs| > 0 {
      SumBounds(rs);
      RatioBounds(Sum(rs) as real, |rs| as real);
    }
  }

  /** A total between n and 5n, divided by n, lies between 1 and 5. */
  lemma RatioBounds(total: real, n: real)
    requires 0.0 < n && n <= total <= 5.0 * n
    ensures 1.0 <= total / n <= 5.0
  {
  }

  /** A value no rating has is counted 0 times. */
  lemma {:induction false} CountAbsent(rs: seq<Rating>, v: int)
    requires forall i :: 0 <= i < |rs| ==> rs[i].rating != v
    ensures Count(rs, v) == 0
  {
    if rs != [] {
      CountAbsent(rs[..|rs| - 1], v);
    }
  }

  /** The step of the statistics loop: one more rating bumps the count of its
      own value and leaves the other counts alone. */
  lemma BreakdownStep(rs: seq<Rating>, i: nat, before: nat)
    requires i < |rs|
    requires rs[i].rating in Breakdown(rs[..i]) ==> before == Breakdown(rs[..i])[rs[i].rating]
    requires rs[i].rating !in Breakdown(rs[..i]) ==> before == 0
    ensures Breakdown(rs[..i + 1]) == Breakdown(rs[..i])[rs[i].rating := before + 1]
    ensures Sum(rs[..i + 1]) == Sum(rs[..i]) + rs[i].rating
  {
    var pre := rs[..i];
    var post := rs[..i + 1];
    var v := rs[i].rating;
    assert post[..i] == pre;
    assert post[i] == rs[i];
    if v !in Breakdown(pre) {
      CountAbsent(pre, v);
    }
    var left := Breakdown(post);
    var right := Breakdown(pre)[v := before + 1];
    forall w | w in left
      ensures w in right
    {
      if w != v && w !in Scale {
        var k :| 0 <= k < |post| && post[k].rating == w;
        assert pre[k] == post[k];
      }
    }
    forall w | w in right
      ensures w in left
    {
      if w != v && w !in Scale {
        var k :| 0 <= k < |pre| && pre[k].rating == w;
        assert post[k] == pre[k];
      }
    }
  }

  /** The aggregation of getRatingStats over the listed ratings: a forEach
      that bumps one breakdown key and the running sum per rating. */
  method ComputeStats(rs: seq<Rating>) returns (s: Stats)
    ensures s.total == |rs|
    ensures s.breakdown == Breakdown(rs)
    ensures s.average == Average(rs)
  {
    var breakdown: map<int, nat> := map[1 := 0, 2 := 0, 3 := 0, 4 := 0, 5 := 0];
    var totalRating := 0;
    var i := 0;
    while i < |rs|
      invariant 0 <= i <= |rs|
      invariant breakdown == Breakdown(rs[..i])
      invariant totalRating == Sum(rs[..i])
    {
      var v := rs[i].rating;
      // `breakdown[v] || 0`: an absent key reads as undefined, a count of 0 is falsy
      var before := if v in breakdown && breakdown[v] != 0 then breakdown[v] else 0;
      BreakdownStep(rs, i, before);
      breakdown := breakdown[v := before + 1];
      totalRating := totalRating + v;
      i := i + 1;
    }
    assert rs[..i] == rs;
    s := Stats(|rs|, if |rs| > 0 then totalRating as real / |rs| as real else 0.0, breakdown);
  }

  /** Every element of rs is the record of a listed document, under its id. */
  predicate RecordsOf(rs: seq<Rating>, docs: map<string, RatingDoc>, now: int)
  {
    forall i :: 0 <= i < |rs| ==>
      rs[i].id in docs && Listed(docs[rs[i].id]) && rs[i] == ToRating(rs[i].id, docs[rs[i].id], now)
  }

  /** Every listed document has a record in rs. */
  predicate Covers(rs: seq<Rating>, docs: map<string, RatingDoc>)
  {
    forall k :: k in docs && Listed(docs[k]) ==> exists i :: 0 <= i < |rs| && rs[i].id == k
  }

  /** No document is listed twice. */
  predicate DistinctIds(rs: seq<Rating>)
  {
    forall i, j :: 0 <= i < j < |rs| ==> rs[i].id != rs[j].id
  }

  /** The ids of the documents the createdAt query returns. */
  function ListedIds(docs: map<string, RatingDoc>): set<string>
  {
    set k | k in docs && Listed(docs[k])
  }

  /** The ids a list of records carries. */
  function IdsOf(rs: seq<Rating>): set<string>
  {
    set i | 0 <= i < |rs| :: rs[i].id
  }

  /** A list with distinct ids has as many ids as records. */
  lemma {:induction false} DistinctIdsCount(rs: seq<Rating>)
    requires DistinctIds(rs)
    ensures |IdsOf(rs)| == |rs|
  {
    if rs != [] {
      var init := rs[..|rs| - 1];
      assert DistinctIds(init);
      DistinctIdsCount(init);
      assert IdsOf(rs) == IdsOf(init) + {rs[|rs| - 1].id};
      assert rs[|rs| - 1].id !in IdsOf(init);
    }
  }

  /** Records of the listed documents that cover them all, each once, are as
      many as the listed documents. */
  lemma RecordCount(rs: seq<Rating>, docs: map<string, RatingDoc>, now: int)
    requires RecordsOf(rs, docs, now) && Covers(rs, docs) && DistinctIds(rs)
    ensures |rs| == |ListedIds(docs)|
  {
    DistinctIdsCount(rs);
    assert IdsOf(rs) == ListedIds(docs);
  }

  /** Two equal entries make a multiplicity of at least two. */
  lemma RepeatedEntry(s: seq<Rating>, i: nat, j: nat)
    requires i < j < |s| && s[i] == s[j]
    ensures multiset(s)[s[i]] >= 2
  {
    assert s == s[..i] + [s[i]] + s[i + 1..j] + [s[j]] + s[j + 1..];
  }

  /** A list with distinct ids holds every record at most once. */
  lemma {:induction false} DistinctIdsOnce(s: seq<Rating>, x: Rating)
    requires DistinctIds(s)
    ensures multiset(s)[x] <= 1
  {
    if s != [] {
      var init := s[..|s| - 1];
      assert s == init + [s[|s| - 1]];
      assert DistinctIds(init);
      DistinctIdsOnce(init, x);
      if x == s[|s| - 1] {
        assert x !in init;
      }
    }
  }

  /** The loop state of ListedRatings after the first j keys: records of
      listed documents, each once, all from those keys, and covering the
      listed ones among them. */
  ghost predicate ListedUpTo(xs: seq<Rating>, ks: seq<string>, j: nat, docs: map<string, RatingDoc>, now: int)
  {
    && j <= |ks|
    && RecordsOf(xs, docs, now) && DistinctIds(xs)
    && (forall i :: 0 <= i < |xs| ==> xs[i].id in ks[..j])
    && (forall m :: 0 <= m < j && ks[m] in docs && Listed(docs[ks[m]]) ==>
          exists i :: 0 <= i < |xs| && xs[i].id == ks[m])
  }

  /** A key whose document the query leaves out adds no record. */
  lemma ListedSkip(xs: seq<Rating>, ks: seq<string>, j: nat, docs: map<string, RatingDoc>, now: int)
    requires ListedUpTo(xs, ks, j, docs, now) && j < |ks|
    requires ks[j] !in docs || !Listed(docs[ks[j]])
    ensures ListedUpTo(xs, ks, j + 1, docs, now)
  {
    assert ks[..j] <= ks[..j + 1];
    forall i | 0 <= i < |xs| ensures xs[i].id in ks[..j + 1] {
      assert xs[i].id in ks[..j];
    }
  }

  /** A listed key not seen before adds its record. */
  lemma ListedAppend(xs: seq<Rating>, ks: seq<string>, j: nat, docs: map<string, RatingDoc>, now: int)
    requires ListedUpTo(xs, ks, j, docs, now) && j < |ks|
    requires forall a, b :: 0 <= a < b < |ks| ==> ks[a] != ks[b]
    requires ks[j] in docs && Listed(docs[ks[j]])
    ensures ListedUpTo(xs + [ToRating(ks[j], docs[ks[j]], now)], ks, j + 1, docs, now)
  {
    var ys := xs + [ToRating(ks[j], docs[ks[j]], now)];
    assert ks[j] !in ks[..j];
    forall i | 0 <= i < |xs| ensures ys[i].id != ks[j] && ys[i].id in ks[..j + 1] {
      assert ys[i] == xs[i];
      assert xs[i].id in ks[..j];
    }
    assert ys[|xs|].id == ks[j];
    forall m | 0 <= m < j + 1 && ks[m] in docs && Listed(docs[ks[m]])
      ensures exists i :: 0 <= i < |ys| && ys[i].id == ks[m]
    {
      if m < j {
        var i :| 0 <= i < |xs| && xs[i].id == ks[m];
        assert ys[i] == xs[i];
      }
    }
  }

  /** The records of the documents the query returns, in snapshot order. */
  method ListedRatings(docs: map<string, RatingDoc>, now: int) returns (xs: seq<Rating>)
    ensures RecordsOf(xs, docs, now) && Covers(xs, docs) && DistinctIds(xs)
  {
    var ks := FirestoreService.Keys(docs);
    xs := [];
    var j := 0;
    while j < |ks|
      invariant 0 <= j <= |ks|
      invariant ListedUpTo(xs, ks, j, docs, now)
    {
      var d := docs[ks[j]];
      if Listed(d) {
        ListedAppend(xs, ks, j, docs, now);
        xs := xs + [ToRating(ks[j], d, now)];
      } else {
        ListedSkip(xs, ks, j, docs, now);
      }
      j := j + 1;
    }
    forall k | k in docs && Listed(docs[k])
      ensures exists i :: 0 <= i < |xs| && xs[i].id == k
    {
      var m :| 0 <= m < |ks| && ks[m] == k;
    }
  }

  /** Sorts the records newest first, as the query's ordering does. */
  method SortNewestFirst(xs: seq<Rating>) returns (sorted: seq<Rating>)
    ensures multiset(sorted) == multiset(xs)
    ensures SortedBy(sorted, NewerFirst)
  {
    var a := new Rating[|xs|](i requires 0 <= i < |xs| => xs[i]);
    assert a[..] == xs;
    Sort(a, NewerFirst);
    NewerFirstTotal();
    InsertionSortSorted(xs, NewerFirst);
    InsertionSortPermutes(xs, NewerFirst);
    sorted := a[..];
  }

  /** Reordering the records keeps them the records of the listed documents. */
  lemma PermutedRecords(xs: seq<Rating>, sorted: seq<Rating>, docs: map<string, RatingDoc>, now: int)
    requires multiset(sorted) == multiset(xs)
    requires RecordsOf(xs, docs, now) && Covers(xs, docs) && DistinctIds(xs)
    ensures RecordsOf(sorted, docs, now) && Covers(sorted, docs) && DistinctIds(sorted)
  {
    forall i, j | 0 <= i < j < |sorted|
      ensures sorted[i].id != sorted[j].id
    {
      if sorted[i].id == sorted[j].id {
        assert sorted[i] in multiset(xs) && sorted[j] in multiset(xs);
        assert sorted[i] == sorted[j];
        RepeatedEntry(sorted, i, j);
        DistinctIdsOnce(xs, sorted[i]);
        assert false;
      }
    }
    forall i | 0 <= i < |sorted|
      ensures sorted[i].id in docs && Listed(docs[sorted[i].id])
           && sorted[i] == ToRating(sorted[i].id, docs[sorted[i].id], now)
    {
      assert sorted[i] in multiset(xs);
    }
    forall k | k in docs && Listed(docs[k])
      ensures exists i :: 0 <= i < |sorted| && sorted[i].id == k
    {
      var p :| 0 <= p < |xs| && xs[p].id == k;
      assert xs[p] in multiset(sorted);
    }
  }

  /** The ratings collection. */
  class RatingsStore {
    var docs: map<string, RatingDoc>

    constructor (docs: map<string, RatingDoc>)
      ensures this.docs == docs
    {
      this.docs := docs;
    }

    /** submitRating: adds a document under a new id and returns the id; a
        failed write is reported with the page's own message. */
    method SubmitRating(input: RatingInput, now: int, userAgent: string, outcome: Outcome)
      returns (r: Result<string>)
      modifies this
      ensures outcome.Failed? ==> r == Err(SubmitFailed) && unchanged(this)
      ensures outcome.Done? ==> r.Ok? && r.value !in old(docs)
      ensures outcome.Done? ==> docs == old(docs)[r.value := Submitted(input, now, userAgent)]
    {
      if outcome.Failed? {
        return Err(SubmitFailed);
      }
      var id := FirestoreService.FreshId(docs.Keys);
      docs := docs[id := Submitted(input, now, userAgent)];
      return Ok(id);
    }

    /** getAllRatings: every document that has a createdAt, newest first, as
        records. */
    method GetAllRatings(now: int, outcome: Outcome) returns (r: Result<seq<Rating>>)
      ensures outcome.Failed? ==> r == Err(FetchFailed)
      ensures outcome.Done? ==> r.Ok? && SortedBy(r.value, NewerFirst)
      ensures r.Ok? ==> RecordsOf(r.value, docs, now) && Covers(r.value, docs) && DistinctIds(r.value)
      ensures r.Ok? ==> |r.value| == |ListedIds(docs)|
    {
      if outcome.Failed? {
        return Err(FetchFailed);
      }
      var xs := ListedRatings(docs, now);
      var sorted := SortNewestFirst(xs);
      PermutedRecords(xs, sorted, docs, now);
      RecordCount(sorted, docs, now);
      return Ok(sorted);
    }

    /** deleteRating: removes the document; deleting an absent one succeeds. */
    method DeleteRating(id: string, outcome: Outcome) returns (r: Result<()>)
      modifies this
      ensures outcome.Failed? ==> r == Err(DeleteFailed) && unchanged(this)
      ensures outcome.Done? ==> r == Ok(()) && docs == old(docs) - {id}
    {
      if outcome.Failed? {
        return Err(DeleteFailed);
      }
      docs := docs - {id};
      return Ok(());
    }

    /** getRatingStats: the statistics of everything getAllRatings lists; any
        failure on the way is reported with the statistics message. */
    method GetRatingStats(now: int, outcome: Outcome) returns (r: Result<Stats>)
      ensures outcome.Failed? ==> r == Err(StatsFailed)
      ensures outcome.Done? ==> r.Ok?
      ensures r.Ok? ==> r.value.total == |ListedIds(docs)|
      ensures r.Ok? ==> exists rs: seq<Rating> ::
        && RecordsOf(rs, docs, now) && Covers(rs, docs) && DistinctIds(rs)
        && r.value == Stats(|rs|, Average(rs), Breakdown(rs))
    {
      var all := GetAllRatings(now, outcome);
      if all.Err? {
        return Err(StatsFailed);
      }
      var s := ComputeStats(all.value);
      return Ok(s);
    }
  }
}
