/** The shared restaurant directory: records, reviews, votes and the list operations on them. */
module Restaurants {

  import opened Seqs
  import Rating

  /** One review as the review form submits it. */
  datatype Review = Review(user: string, rating: int, comment: string)

  /** A directory entry. `id` is whatever `Date.now()` returned when the entry
      was added, so two entries may share one. `rating` is kept in tenths of a
      star (`4.5` is `45`). */
  datatype Restaurant = Restaurant(
    id: int,
    name: string,
    category: string,
    distance: string,
    rating: int,
    reviews: seq<Review>,
    votes: int)

  /** The category labels the add form offers: Korean, Western, Japanese,
      Chinese, Asian, fast food and other. */
  const Categories: seq<string> := ["한식", "양식", "일식", "중식", "아시안", "패스트푸드", "기타"]

  /** The category list offers seven distinct, non-empty labels. */
  lemma CategoriesDistinct()
    ensures |Categories| == 7 && NoDup(Categories)
    ensures forall i :: 0 <= i < |Categories| ==> Categories[i] != ""
  {
  }

  /** The star ratings of `reviews`, in review order. */
  function Scores(reviews: seq<Review>): (scores: seq<int>)
    ensures |scores| == |reviews|
    ensures forall i :: 0 <= i < |reviews| ==> scores[i] == reviews[i].rating
  {
    seq(|reviews|, i requires 0 <= i < |reviews| => reviews[i].rating)
  }

  /** Every review score lies in `[1, 5]`, the range the review form offers. */
  predicate ScoresInRange(reviews: seq<Review>) {
    forall i :: 0 <= i < |reviews| ==> 1 <= reviews[i].rating <= 5
  }

  /** The rating is the rounded mean of the review scores, or 0 without reviews. */
  predicate RatingConsistent(x: Restaurant) {
    if |x.reviews| == 0 then x.rating == 0 else x.rating == Rating.MeanTenths(Scores(x.reviews))
  }

  /** A freshly added entry: no rating, no reviews, no votes. */
  function NewRestaurant(id: int, name: string, category: string, distance: string): (x: Restaurant)
    ensures x.id == id && x.name == name && x.category == category && x.distance == distance
    ensures x.rating == 0 && x.reviews == [] && x.votes == 0
    ensures RatingConsistent(x)
  {
    Restaurant(id, name, category, distance, 0, [], 0)
  }

  /** The entry with one more review at the end and its rating recomputed from all of its reviews. */
  function WithReview(x: Restaurant, review: Review): (y: Restaurant)
    ensures y.reviews == x.reviews + [review]
    ensures y == x.(reviews := y.reviews, rating := y.rating)
    ensures RatingConsistent(y)
  {
    var reviews := x.reviews + [review];
    x.(reviews := reviews, rating := Rating.MeanTenths(Scores(reviews)))
  }

  /** When every score is a star count from 1 to 5, the recomputed rating is
      between 1.0 and 5.0. */
  lemma WithReviewRatingInRange(x: Restaurant, review: Review)
    requires ScoresInRange(x.reviews) && 1 <= review.rating <= 5
    ensures ScoresInRange(WithReview(x, review).reviews)
    ensures 10 <= WithReview(x, review).rating <= 50
  {
    var reviews := x.reviews + [review];
    Rating.MeanTenthsBounds(Scores(reviews), 1, 5);
  }

  /** A new review contributes its score last; the earlier scores stay as they were. */
  lemma ScoresAppend(reviews: seq<Review>, review: Review)
    ensures Scores(reviews + [review]) == Scores(reviews) + [review.rating]
  {
  }

  /** The new rating is the rounded mean of the old total plus the new score,
      over one more review. */
  lemma WithReviewRunningMean(x: Restaurant, review: Review)
    ensures var n := |x.reviews| + 1;
            var total := Rating.Sum(Scores(x.reviews)) + review.rating;
            var t := WithReview(x, review).rating;
            2 * n * t - n <= 20 * total < 2 * n * t + n
  {
    ScoresAppend(x.reviews, review);
    Rating.SumAppend(Scores(x.reviews), review.rating);
  }

  /** The directory after `addReview(id)`: every entry carrying `id` gains the
      review, every other entry is untouched. */
  function AddReview(rs: seq<Restaurant>, id: int, review: Review): (r: seq<Restaurant>)
    ensures |r| == |rs|
    ensures forall i :: 0 <= i < |rs| && rs[i].id != id ==> r[i] == rs[i]
    ensures forall i :: 0 <= i < |rs| && rs[i].id == id ==>
              && r[i].reviews == rs[i].reviews + [review]
              && r[i] == rs[i].(reviews := r[i].reviews, rating := r[i].rating)
              && RatingConsistent(r[i])
  {
    seq(|rs|, i requires 0 <= i < |rs| => if rs[i].id == id then WithReview(rs[i], review) else rs[i])
  }

  /** The directory after `voteForRestaurant(id)`: every entry carrying `id`
      has one more vote, and nothing else changes. */
  function Vote(rs: seq<Restaurant>, id: int): (r: seq<Restaurant>)
    ensures |r| == |rs|
    ensures forall i :: 0 <= i < |rs| ==>
              && r[i] == rs[i].(votes := r[i].votes)
              && r[i].votes == rs[i].votes + (if rs[i].id == id then 1 else 0)
  {
    seq(|rs|, i requires 0 <= i < |rs| => if rs[i].id == id then rs[i].(votes := rs[i].votes + 1) else rs[i])
  }

  /** The filter test of `deleteRestaurant(id)`: keep entries with another id. */
  function OtherId(id: int): Restaurant -> bool {
    (x: Restaurant) => x.id != id
  }

  /** The directory after `deleteRestaurant(id)`: every entry with another id, in order. */
  function Delete(rs: seq<Restaurant>, id: int): (r: seq<Restaurant>)
    ensures forall x :: x in r <==> x in rs && x.id != id
  {
    Filter(rs, OtherId(id))
  }

  /** The number of entries carrying `id`. */
  function CountId(rs: seq<Restaurant>, id: int): (n: nat)
    ensures n <= |rs|
  {
    if |rs| == 0 then 0 else (if rs[0].id == id then 1 else 0) + CountId(rs[1..], id)
  }

  /** The total of all vote counters. */
  function TotalVotes(rs: seq<Restaurant>): int {
    if |rs| == 0 then 0 else rs[0].votes + TotalVotes(rs[1..])
  }

  /** Deleting an id removes exactly the entries that carry it. */
  lemma {:induction false} DeleteCount(rs: seq<Restaurant>, id: int)
    ensures |Delete(rs, id)| + CountId(rs, id) == |rs|
  {
    if |rs| > 0 {
      DeleteCount(rs[1..], id);
    }
  }

  /** A vote adds one to the total per entry carrying the id: with unique ids, exactly one. */
  lemma {:induction false} VoteTotal(rs: seq<Restaurant>, id: int)
    ensures TotalVotes(Vote(rs, id)) == TotalVotes(rs) + CountId(rs, id)
  {
    if |rs| > 0 {
      assert Vote(rs, id)[1..] == Vote(rs[1..], id);
      VoteTotal(rs[1..], id);
    }
  }

  /** Adding an entry with an id no other entry carries and then deleting that id
      gives back the directory as it was. */
  lemma DeleteUndoesAdd(rs: seq<Restaurant>, x: Restaurant)
    requires forall i :: 0 <= i < |rs| ==> rs[i].id != x.id
    ensures Delete(rs + [x], x.id) == rs
  {
    FilterConcat(rs, [x], OtherId(x.id));
    FilterKeepsAll(rs, OtherId(x.id));
  }

  /** Deleting an id nobody carries changes nothing; deleting twice is deleting once. */
  lemma DeleteIdempotent(rs: seq<Restaurant>, id: int)
    ensures Delete(Delete(rs, id), id) == Delete(rs, id)
  {
    FilterKeepsAll(Delete(rs, id), OtherId(id));
  }

  /** Every operation on the directory keeps each rating consistent with its reviews. */
  lemma OperationsKeepRatingsConsistent(rs: seq<Restaurant>, id: int, review: Review)
    requires forall x :: x in rs ==> RatingConsistent(x)
    ensures forall x :: x in AddReview(rs, id, review) ==> RatingConsistent(x)
    ensures forall x :: x in Vote(rs, id) ==> RatingConsistent(x)
    ensures forall x :: x in Delete(rs, id) ==> RatingConsistent(x)
  {
    var v := Vote(rs, id);
    forall x | x in v ensures RatingConsistent(x) {
      var i :| 0 <= i < |v| && v[i] == x;
      assert rs[i] in rs;
    }
    var a := AddReview(rs, id, review);
    forall x | x in a ensures RatingConsistent(x) {
      var i :| 0 <= i < |a| && a[i] == x;
      assert rs[i] in rs;
    }
  }
}
