/**
 * The rating entity's range check and the weighted average of an
 * application's rating statistics.
 */
module Ratings {
  import opened Wrappers
  import opened Text

  /** The scores a rating may take. */
  predicate InRange(r: int) { 1 <= r <= 5 }

  const RangeMessage := "Rating must be between 1 and 5"

  /** A rating record; only its score is modelled, the other columns are plain data. */
  class Rating {
    /** The boxed score, null until one is set. */
    var rating: Option<int>

    constructor()
      ensures rating == None
    {
      rating := None;
    }

    /** `setRating(r)`: stores `r` when it is a valid score, and otherwise rejects it and keeps the old score. */
    method SetRating(r: Int32) returns (o: Outcome<string>)
      modifies this
      ensures o.Pass? <==> InRange(r)
      ensures o.Pass? ==> rating == Some(r as int)
      ensures o.Fail? ==> o.error == RangeMessage && rating == old(rating)
    {
      if r < 1 || r > 5 {
        return Fail(RangeMessage);
      }
      rating := Some(r as int);
      return Pass;
    }
  }

  /** One row of an application's statistics: how many ratings gave the score `scale`. */
  datatype RatingStats = RatingStats(applicationId: Uuid, scale: Short, count: int)

  /** Σ scale·count. */
  function TotalSum(stats: seq<RatingStats>): int
    decreases |stats|
  {
    if |stats| == 0 then 0
    else TotalSum(stats[..|stats| - 1]) + Weight(stats[|stats| - 1])
  }

  /** What one row adds to the weighted sum. */
  function Weight(x: RatingStats): int {
    x.scale * x.count
  }

  /** Σ count. */
  function TotalRatings(stats: seq<RatingStats>): int
    decreases |stats|
  {
    if |stats| == 0 then 0 else TotalRatings(stats[..|stats| - 1]) + stats[|stats| - 1].count
  }

  function Abs(x: int): nat { if x < 0 then -x else x }

  /** Java's `long` division, which truncates toward zero. */
  function TruncDiv(a: int, b: int): (q: int)
    requires b != 0
    ensures Abs(q) == Abs(a) / Abs(b)
    ensures q < 0 ==> (a < 0) != (b < 0)
    ensures q > 0 ==> (a < 0) == (b < 0)
  {
    QuotientNonNegative(Abs(a), Abs(b));
    var d := Abs(a) / Abs(b);
    if (a < 0) == (b < 0) then d else -d
  }

  lemma QuotientNonNegative(x: nat, y: nat)
    requires y > 0
    ensures x / y >= 0
  {
  }

  /** Truncation is symmetric under negation, unlike the floor and Euclidean divisions. */
  lemma TruncDivOdd(a: int, b: int)
    requires b != 0
    ensures TruncDiv(-a, b) == -TruncDiv(a, b) && TruncDiv(a, -b) == -TruncDiv(a, b)
  {
  }

  /**
   * What `getAvgByApplicationId` returns for the application's statistics:
   * null for an empty list, a failure (division by zero) when every count is
   * zero, and otherwise the truncated quotient of the weighted sum by the
   * number of ratings, converted to a double only after the division.
   */
  function AverageOf(stats: seq<RatingStats>): (r: Result<Option<int>, string>)
    ensures r.Failure? <==> |stats| > 0 && TotalRatings(stats) == 0
    ensures |stats| == 0 ==> r == Success(None)
    ensures r.Success? && |stats| > 0 ==> r.value == Some(TruncDiv(TotalSum(stats), TotalRatings(stats)))
  {
    if |stats| == 0 then Success(None)
    else if TotalRatings(stats) == 0 then Failure("/ by zero")
    else Success(Some(TruncDiv(TotalSum(stats), TotalRatings(stats))))
  }

  method GetAvgByApplicationId(stats: seq<RatingStats>) returns (avg: Result<Option<int>, string>)
    ensures avg == AverageOf(stats)
  {
    var avgRating: Option<int> := None;
    if |stats| > 0 {
      var totalSum := 0;
      var totalRatings := 0;
      for i := 0 to |stats|
        invariant totalSum == TotalSum(stats[..i])
        invariant totalRatings == TotalRatings(stats[..i])
        invariant avgRating == if i == 0 then None else Some(0)
      {
        if avgRating.None? {
          avgRating := Some(0);
        }
        assert stats[..i + 1][..i] == stats[..i];
        totalSum := totalSum + Weight(stats[i]);
        totalRatings := totalRatings + stats[i].count;
      }
      assert stats[..|stats|] == stats;
      if totalRatings == 0 {
        return Failure("/ by zero");
      }
      avgRating := Some(TruncDiv(totalSum, totalRatings));
    }
    return Success(avgRating);
  }

  lemma {:induction false} SumsAppend(s: seq<RatingStats>, t: seq<RatingStats>)
    ensures TotalSum(s + t) == TotalSum(s) + TotalSum(t)
    ensures TotalRatings(s + t) == TotalRatings(s) + TotalRatings(t)
    decreases |t|
  {
    if |t| == 0 {
      assert s + t == s;
    } else {
      var t' := t[..|t| - 1];
      assert (s + t)[..|s + t| - 1] == s + t';
      SumsAppend(s, t');
    }
  }

  /** Removing the row at `j` removes its share from both sums. */
  lemma SumsRemove(t: seq<RatingStats>, j: nat)
    requires j < |t|
    ensures TotalSum(t) == TotalSum(t[..j] + t[j + 1..]) + Weight(t[j])
    ensures TotalRatings(t) == TotalRatings(t[..j] + t[j + 1..]) + t[j].count
  {
    var pre, post, front := t[..j], t[j + 1..], t[..j + 1];
    assert t == front + post;
    assert front[..|front| - 1] == pre && front[|front| - 1] == t[j];
    SumsAppend(front, post);
    SumsAppend(pre, post);
  }

  lemma MultisetRemove<T>(s: seq<T>, t: seq<T>, j: nat)
    requires |s| > 0 && j < |t| && t[j] == s[|s| - 1] && multiset(s) == multiset(t)
    ensures multiset(s[..|s| - 1]) == multiset(t[..j] + t[j + 1..])
  {
    var x := t[j];
    assert s == s[..|s| - 1] + [x];
    assert t == (t[..j] + [x]) + t[j + 1..];
    assert multiset(t) == multiset(t[..j]) + multiset{x} + multiset(t[j + 1..]);
    assert multiset(s) == multiset(s[..|s| - 1]) + multiset{x};
    assert multiset(t[..j] + t[j + 1..]) == multiset(t[..j]) + multiset(t[j + 1..]);
    assert multiset(s[..|s| - 1]) == multiset(s) - multiset{x};
    assert multiset(t[..j] + t[j + 1..]) == multiset(t) - multiset{x};
  }

  /** Both sums, and so the average, do not depend on the order of the statistics rows. */
  lemma {:induction false} SumsPermutation(s: seq<RatingStats>, t: seq<RatingStats>)
    requires multiset(s) == multiset(t)
    ensures TotalSum(s) == TotalSum(t) && TotalRatings(s) == TotalRatings(t)
    decreases |s|
  {
    if |s| == 0 {
      assert |t| == |multiset(t)| == 0;
    } else {
      var x := s[|s| - 1];
      assert x in multiset(t);
      var j :| 0 <= j < |t| && t[j] == x;
      MultisetRemove(s, t, j);
      SumsPermutation(s[..|s| - 1], t[..j] + t[j + 1..]);
      SumsRemove(t, j);
    }
  }

  lemma AverageOrderIndependent(s: seq<RatingStats>, t: seq<RatingStats>)
    requires multiset(s) == multiset(t)
    ensures AverageOf(s) == AverageOf(t)
  {
    SumsPermutation(s, t);
    assert |s| == |multiset(s)| == |t|;
  }

  /** Scores between 1 and 5 with non-negative counts weigh between 1 and 5 times the number of ratings. */
  lemma {:induction false} SumBounds(stats: seq<RatingStats>)
    requires forall i :: 0 <= i < |stats| ==> InRange(stats[i].scale) && stats[i].count >= 0
    ensures TotalRatings(stats) <= TotalSum(stats) <= 5 * TotalRatings(stats)
    decreases |stats|
  {
    if |stats| > 0 {
      var x := stats[|stats| - 1];
      SumBounds(stats[..|stats| - 1]);
      assert x.count <= Weight(x) <= 5 * x.count by {
        assert InRange(x.scale) && x.count >= 0;
      }
    }
  }

  lemma DivBounds(a: int, b: int)
    requires 0 < b <= a <= 5 * b
    ensures 1 <= a / b <= 5
  {
    var q, r := a / b, a % b;
    assert a == q * b + r && 0 <= r < b;
  }

  /** The average of valid ratings is itself a valid score. */
  lemma AverageInRange(stats: seq<RatingStats>)
    requires forall i :: 0 <= i < |stats| ==> InRange(stats[i].scale) && stats[i].count >= 0
    requires TotalRatings(stats) > 0
    ensures AverageOf(stats).Success? && AverageOf(stats).value.Some? && InRange(AverageOf(stats).value.value)
  {
    SumBounds(stats);
    DivBounds(TotalSum(stats), TotalRatings(stats));
  }
}
