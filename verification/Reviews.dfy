/** Reviews and the rating that is published for their target: the mean, rounded to one decimal. */
module Reviews {
  import opened Common

  function Sum(ratings: seq<real>): real {
    if ratings == [] then 0.0 else Sum(ratings[..|ratings| - 1]) + ratings[|ratings| - 1]
  }

  function Mean(ratings: seq<real>): real
    requires ratings != []
  {
    Sum(ratings) / |ratings| as real
  }

  /** Math.round: to the nearest integer, halves up. */
  function Round(x: real): int {
    (x + 0.5).Floor
  }

  function ToTenth(x: real): real {
    Round(x * 10.0) as real / 10.0
  }

  /** What is stored on a target: zero and zero while it has no reviews. */
  datatype Published = Published(rating: real, count: nat)

  function Publish(ratings: seq<real>): Published {
    Published(if ratings == [] then 0.0 else ToTenth(Mean(ratings)), |ratings|)
  }

  // ---------------------------------------------------------------- rounding

  /** `ToTenth(x)` is the one multiple of a tenth in the half-open interval of a tenth around `x`. */
  lemma ToTenthExactly(x: real, k: int)
    ensures ToTenth(x) == k as real / 10.0 <==> k as real / 10.0 - 0.05 <= x < k as real / 10.0 + 0.05
  {
    var r := Round(x * 10.0);
    assert r as real <= x * 10.0 + 0.5 < r as real + 1.0;
    if ToTenth(x) == k as real / 10.0 {
      assert r as real == k as real;
    }
    if k as real / 10.0 - 0.05 <= x < k as real / 10.0 + 0.05 {
      assert k as real <= x * 10.0 + 0.5 < k as real + 1.0;
      assert k == r;
    }
  }

  lemma ToTenthMonotone(x: real, y: real)
    requires x <= y
    ensures ToTenth(x) <= ToTenth(y)
  {
    assert (x * 10.0 + 0.5).Floor <= (y * 10.0 + 0.5).Floor;
  }

  // ---------------------------------------------------------------- sums and means

  predicate InRange(ratings: seq<real>) {
    forall i :: 0 <= i < |ratings| ==> 1.0 <= ratings[i] <= 5.0
  }

  lemma {:induction false} SumInRange(ratings: seq<real>)
    requires InRange(ratings)
    ensures |ratings| as real <= Sum(ratings) <= 5.0 * |ratings| as real
  {
    if ratings != [] {
      SumInRange(ratings[..|ratings| - 1]);
    }
  }

  lemma {:induction false} SumAppend(a: seq<real>, b: seq<real>)
    ensures Sum(a + b) == Sum(a) + Sum(b)
  {
    if b == [] {
      assert a + b == a;
    } else {
      assert (a + b)[..|a + b| - 1] == a + b[..|b| - 1];
      SumAppend(a, b[..|b| - 1]);
    }
  }

  /** An element of a sequence, with what stands before and after it. */
  lemma Around<T>(s: seq<T>, x: T) returns (front: seq<T>, back: seq<T>)
    requires x in multiset(s)
    ensures s == front + [x] + back
    ensures multiset(front + back) == multiset(s) - multiset{x}
  {
    var i :| 0 <= i < |s| && s[i] == x;
    front, back := s[..i], s[i + 1..];
    assert s == front + [x] + back;
  }

  /** The sum depends on the ratings only, not on their order. */
  lemma {:induction false} SumIgnoresOrder(a: seq<real>, b: seq<real>)
    requires multiset(a) == multiset(b)
    ensures Sum(a) == Sum(b) && |a| == |b|
    decreases |a|
  {
    assert |multiset(a)| == |multiset(b)|;
    if a != [] {
      var n := |a| - 1;
      assert a == a[..n] + [a[n]];
      var front, back := Around(b, a[n]);
      assert multiset(a[..n]) == multiset(a) - multiset{a[n]};
      SumIgnoresOrder(a[..n], front + back);
      SumAppend(front, back);
      SumAppend(front + [a[n]], back);
      SumSnoc(front, a[n]);
    }
  }

  lemma MulLess(a: real, b: real, n: real)
    requires a < b && n > 0.0
    ensures a * n < b * n
  {
  }

  lemma QuotientBounds(sum: real, n: real, lo: real, hi: real)
    requires n > 0.0 && lo * n <= sum <= hi * n
    ensures lo <= sum / n <= hi
  {
    var q := sum / n;
    assert q * n == sum;
    if q < lo {
      MulLess(q, lo, n);
    }
    if hi < q {
      MulLess(hi, q, n);
    }
  }

  lemma SumSnoc(ratings: seq<real>, r: real)
    ensures Sum(ratings + [r]) == Sum(ratings) + r
  {
    assert (ratings + [r])[..|ratings|] == ratings;
  }

  lemma MeanTimesCount(ratings: seq<real>)
    requires ratings != []
    ensures Mean(ratings) * |ratings| as real == Sum(ratings)
  {
  }

  lemma Blend(m: real, r: real, n: real)
    requires n > 0.0
    ensures m <= r ==> m * (n + 1.0) <= m * n + r <= r * (n + 1.0)
    ensures r <= m ==> r * (n + 1.0) <= m * n + r <= m * (n + 1.0)
  {
    if m < r {
      MulLess(m, r, n);
    } else if r < m {
      MulLess(r, m, n);
    }
  }

  /** Adding a rating moves the mean towards it, never past it. */
  lemma MeanMoves(ratings: seq<real>, r: real)
    requires ratings != []
    ensures Mean(ratings) <= r ==> Mean(ratings) <= Mean(ratings + [r]) <= r
    ensures r <= Mean(ratings) ==> r <= Mean(ratings + [r]) <= Mean(ratings)
  {
    var n, m := |ratings| as real, Mean(ratings);
    MeanTimesCount(ratings);
    SumSnoc(ratings, r);
    assert |ratings + [r]| as real == n + 1.0;
    Blend(m, r, n);
    if m <= r {
      QuotientBounds(m * n + r, n + 1.0, m, r);
    }
    if r <= m {
      QuotientBounds(m * n + r, n + 1.0, r, m);
    }
  }

  // ---------------------------------------------------------------- the published rating

  /** The published rating is a multiple of a tenth, the nearest one to the mean and the upper of two, and
      stays within the scale. */
  lemma PublishedIsClose(ratings: seq<real>)
    requires ratings != [] && InRange(ratings)
    ensures
      var p := Publish(ratings);
      && p.count == |ratings|
      && (p.rating * 10.0).Floor as real == p.rating * 10.0
      && -0.05 < p.rating - Mean(ratings) <= 0.05
      && 1.0 <= p.rating <= 5.0
  {
    var m := Mean(ratings);
    SumInRange(ratings);
    QuotientBounds(Sum(ratings), |ratings| as real, 1.0, 5.0);
    ToTenthExactly(m, Round(m * 10.0));
    ToTenthMonotone(1.0, m);
    ToTenthMonotone(m, 5.0);
  }

  /** It does not depend on the order in which the reviews arrived. */
  lemma PublishedIgnoresOrder(a: seq<real>, b: seq<real>)
    requires multiset(a) == multiset(b)
    ensures Publish(a) == Publish(b)
  {
    SumIgnoresOrder(a, b);
  }

  /** It never falls when a rating at or above the mean arrives, and never rises for one at or below. */
  lemma PublishedFollowsMean(ratings: seq<real>, r: real)
    requires ratings != []
    ensures r >= Mean(ratings) ==> Publish(ratings + [r]).rating >= Publish(ratings).rating
    ensures r <= Mean(ratings) ==> Publish(ratings + [r]).rating <= Publish(ratings).rating
  {
    MeanMoves(ratings, r);
    if r >= Mean(ratings) {
      ToTenthMonotone(Mean(ratings), Mean(ratings + [r]));
    }
    if r <= Mean(ratings) {
      ToTenthMonotone(Mean(ratings + [r]), Mean(ratings));
    }
  }

  // ---------------------------------------------------------------- the service

  datatype TargetType = TrekTarget | UserTarget

  datatype Review = Review(targetType: TargetType, targetId: nat, author: nat, rating: real, text: string)

  /** The ratings given to one target, oldest first. */
  function RatingsOf(reviews: seq<Review>, targetType: TargetType, targetId: nat): (r: seq<real>) {
    if reviews == [] then []
    else
      var last := reviews[|reviews| - 1];
      var before := RatingsOf(reviews[..|reviews| - 1], targetType, targetId);
      if last.targetType == targetType && last.targetId == targetId then before + [last.rating] else before
  }

  lemma RatingsSnoc(reviews: seq<Review>, r: Review, targetType: TargetType, targetId: nat)
    ensures RatingsOf(reviews + [r], targetType, targetId) ==
            RatingsOf(reviews, targetType, targetId)
            + if r.targetType == targetType && r.targetId == targetId then [r.rating] else []
  {
    assert (reviews + [r])[..|reviews|] == reviews;
  }

  function Aggregate(reviews: seq<Review>, targetType: TargetType, targetId: nat): Published {
    Publish(RatingsOf(reviews, targetType, targetId))
  }

  /** A review changes the aggregate of its own target only. */
  lemma OthersKeepTheirAggregate(reviews: seq<Review>, r: Review)
    ensures forall targetType, targetId {:trigger Aggregate(reviews, targetType, targetId)} ::
              targetType != r.targetType || targetId != r.targetId
              ==> Aggregate(reviews + [r], targetType, targetId) == Aggregate(reviews, targetType, targetId)
  {
    forall targetType, targetId | targetType != r.targetType || targetId != r.targetId
      ensures Aggregate(reviews + [r], targetType, targetId) == Aggregate(reviews, targetType, targetId)
    {
      RatingsSnoc(reviews, r, targetType, targetId);
    }
  }

  /** The positions of the reviews of one target. */
  function Positions(reviews: seq<Review>, targetType: TargetType, targetId: nat): set<nat> {
    set k: nat | k < |reviews| && reviews[k].targetType == targetType && reviews[k].targetId == targetId
  }

  /** The stored count is the number of reviews of the target. */
  lemma {:induction false} AggregateCounts(reviews: seq<Review>, targetType: TargetType, targetId: nat)
    ensures Aggregate(reviews, targetType, targetId).count == |Positions(reviews, targetType, targetId)|
  {
    if reviews == [] {
      assert Positions(reviews, targetType, targetId) == {};
    } else {
      var n := |reviews| - 1;
      var before, after := Positions(reviews[..n], targetType, targetId), Positions(reviews, targetType, targetId);
      AggregateCounts(reviews[..n], targetType, targetId);
      if reviews[n].targetType == targetType && reviews[n].targetId == targetId {
        assert after == before + {n};
      } else {
        assert after == before;
      }
    }
  }

  lemma {:induction false} RatingsAppend(a: seq<Review>, b: seq<Review>, targetType: TargetType, targetId: nat)
    ensures RatingsOf(a + b, targetType, targetId)
            == RatingsOf(a, targetType, targetId) + RatingsOf(b, targetType, targetId)
  {
    if b == [] {
      assert a + b == a;
    } else {
      assert (a + b)[..|a + b| - 1] == a + b[..|b| - 1];
      RatingsAppend(a, b[..|b| - 1], targetType, targetId);
    }
  }

  /** Where a review stands among the others does not matter to the ratings as a multiset. */
  lemma RatingsWithout(front: seq<Review>, r: Review, back: seq<Review>, targetType: TargetType, targetId: nat)
    ensures multiset(RatingsOf(front + [r] + back, targetType, targetId))
            == multiset(RatingsOf(front + back + [r], targetType, targetId))
  {
    RatingsSnoc(front, r, targetType, targetId);
    RatingsSnoc(front + back, r, targetType, targetId);
    RatingsAppend(front, back, targetType, targetId);
    RatingsAppend(front + [r], back, targetType, targetId);
  }

  lemma {:induction false} RatingsIgnoreOrder(a: seq<Review>, b: seq<Review>, targetType: TargetType, targetId: nat)
    requires multiset(a) == multiset(b)
    ensures multiset(RatingsOf(a, targetType, targetId)) == multiset(RatingsOf(b, targetType, targetId))
    decreases |a|
  {
    assert |multiset(a)| == |multiset(b)|;
    if a != [] {
      var n := |a| - 1;
      var last := a[n];
      assert a == a[..n] + [last];
      var front, back := Around(b, last);
      assert multiset(a[..n]) == multiset(a) - multiset{last};
      RatingsIgnoreOrder(a[..n], front + back, targetType, targetId);
      RatingsSnoc(a[..n], last, targetType, targetId);
      RatingsSnoc(front + back, last, targetType, targetId);
      RatingsWithout(front, last, back, targetType, targetId);
    }
  }

  /** Two histories with the same reviews, in whatever order they came, publish the same aggregates. */
  lemma AggregateIgnoresOrder(a: seq<Review>, b: seq<Review>, targetType: TargetType, targetId: nat)
    requires multiset(a) == multiset(b)
    ensures Aggregate(a, targetType, targetId) == Aggregate(b, targetType, targetId)
  {
    RatingsIgnoreOrder(a, b, targetType, targetId);
    PublishedIgnoresOrder(RatingsOf(a, targetType, targetId), RatingsOf(b, targetType, targetId));
  }

  lemma {:induction false} RatingsStayOnScale(reviews: seq<Review>, targetType: TargetType, targetId: nat)
    requires forall i :: 0 <= i < |reviews| ==> 1.0 <= reviews[i].rating <= 5.0
    ensures InRange(RatingsOf(reviews, targetType, targetId))
  {
    if reviews != [] {
      RatingsStayOnScale(reviews[..|reviews| - 1], targetType, targetId);
    }
  }

  /** What a target shows: zero while it has no reviews, and then the multiple of a tenth, on the scale, that
      is nearest to the mean of its reviews, the upper one of two. */
  lemma AggregateIsClose(reviews: seq<Review>, targetType: TargetType, targetId: nat)
    requires forall i :: 0 <= i < |reviews| ==> 1.0 <= reviews[i].rating <= 5.0
    ensures
      var ratings, shown := RatingsOf(reviews, targetType, targetId), Aggregate(reviews, targetType, targetId).rating;
      if ratings == [] then shown == 0.0
      else
        && 1.0 <= shown <= 5.0
        && (shown * 10.0).Floor as real == shown * 10.0
        && -0.05 < shown - Sum(ratings) / |ratings| as real <= 0.05
  {
    var ratings := RatingsOf(reviews, targetType, targetId);
    if ratings != [] {
      RatingsStayOnScale(reviews, targetType, targetId);
      PublishedIsClose(ratings);
    }
  }

  class ReviewsService {
    var reviews: seq<Review>
    var treks: map<nat, Published>
    /** None for an account that does not hold the vendor role. */
    var users: map<nat, Option<Published>>

    constructor (treks: map<nat, Published>, users: map<nat, Option<Published>>)
      requires forall t :: t in treks ==> treks[t] == Published(0.0, 0)
      requires forall u :: u in users && users[u].Some? ==> users[u].value == Published(0.0, 0)
      ensures Valid() && reviews == [] && this.treks == treks && this.users == users
    {
      reviews := [];
      this.treks, this.users := treks, users;
    }

    /** Every trek and every vendor shows what its reviews amount to. */
    ghost predicate Valid()
      reads this
    {
      && (forall t :: t in treks ==> treks[t] == Aggregate(reviews, TrekTarget, t))
      && (forall u :: u in users && users[u].Some? ==> users[u].value == Aggregate(reviews, UserTarget, u))
      && (forall i :: 0 <= i < |reviews| ==> 1.0 <= reviews[i].rating <= 5.0)
    }

    /** Rejected when the rating is off the scale; otherwise stored, and its target's aggregate replaced.
        A target that does not exist, or a user without the vendor role, has nowhere to show it. */
    method Create(author: nat, targetType: TargetType, targetId: nat, rating: real, text: string)
      returns (r: Result<Review, string>)
      requires Valid()
      modifies this
      ensures Valid()
      ensures r.Err? <==> !(1.0 <= rating <= 5.0)
      ensures r.Err? ==> reviews == old(reviews) && treks == old(treks) && users == old(users)
      ensures r.Ok? ==> r.value == Review(targetType, targetId, author, rating, text)
                        && reviews == old(reviews) + [r.value]
      ensures treks.Keys == old(treks).Keys && users.Keys == old(users).Keys
      ensures forall u :: u in users ==> users[u].Some? == old(users)[u].Some?
      ensures forall t :: t in treks && (targetType != TrekTarget || t != targetId) ==> treks[t] == old(treks)[t]
      ensures forall u :: u in users && (targetType != UserTarget || u != targetId) ==> users[u] == old(users)[u]
    {
      if !(1.0 <= rating <= 5.0) {
        return Err("rating must be between 1 and 5");
      }
      var review := Review(targetType, targetId, author, rating, text);
      OthersKeepTheirAggregate(reviews, review);
      reviews := reviews + [review];
      var aggregate := Aggregate(reviews, targetType, targetId);
      if targetType == TrekTarget {
        if targetId in treks {
          treks := treks[targetId := aggregate];
        }
      } else if targetId in users && users[targetId].Some? {
        users := users[targetId := Some(aggregate)];
      }
      r := Ok(review);
    }
  }
}
