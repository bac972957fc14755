/** The reviews screen: the star-rating widget, the category filter, the
    review form's check and reset, and the statistics card. */
module Reviews {
  import opened Wrappers
  import Lists
  import Text

  datatype Review = Review(
    id: int,
    title: string,
    content: string,
    rating: int,
    category: string,
    location: string,
    author: string,
    date: string,
    likes: int,
    helpful: int,
    verified: bool)

  /** The review form. */
  datatype NewReview = NewReview(title: string, content: string, rating: int, category: string, location: string)

  /** The screen's state slots; the review list itself is a constant. */
  datatype ReviewsState = ReviewsState(selectedCategory: string, showWriteReview: bool, newReview: NewReview)

  const EmptyForm: NewReview := NewReview("", "", 5, "destination", "")

  const Initial: ReviewsState := ReviewsState("all", false, EmptyForm)

  const AllReviews: seq<Review> := [
    Review(1, "Amazing Hiking Trail in Switzerland", "The Matterhorn trail was absolutely breathtaking!", 5,
           "activity", "Zermatt, Switzerland", "MountainLover", "2024-01-20", 23, 18, true),
    Review(2, "Cozy Hostel in Barcelona Center", "Perfect location, friendly staff, and clean facilities.", 4,
           "accommodation", "Barcelona, Spain", "BackpackerSarah", "2024-01-18", 15, 12, true),
    Review(3, "Disappointing Restaurant Experience", "Food was overpriced and mediocre.", 2,
           "food", "Paris, France", "FoodieExplorer", "2024-01-15", 8, 5, false),
    Review(4, "Must-Visit Temple Complex", "Incredible architecture and rich history.", 5,
           "destination", "Angkor Wat, Cambodia", "CultureSeeker", "2024-01-12", 31, 28, true)
  ]

  /** `StarRating`: stars 1 to 5, star `i` (index `i - 1`) filled exactly when
      `i <= rating`. */
  function StarRating(rating: int): (filled: seq<bool>)
    ensures |filled| == 5
    ensures forall k :: 0 <= k < 5 ==> (filled[k] <==> k + 1 <= rating)
  {
    seq(5, k => k + 1 <= rating)
  }

  /** Pressing star `star` of the editable widget stores that number as the rating. */
  function PressStar(s: ReviewsState, star: int): (r: ReviewsState)
    ensures r.newReview.rating == star
    ensures r.newReview.(rating := s.newReview.rating) == s.newReview
    ensures r.selectedCategory == s.selectedCategory && r.showWriteReview == s.showWriteReview
  {
    s.(newReview := s.newReview.(rating := star))
  }

  /** After pressing a star, exactly the stars up to it are filled. */
  lemma PressedStarFillsUpTo(s: ReviewsState, star: int, k: int)
    requires 1 <= star <= 5 && 0 <= k < 5
    ensures StarRating(PressStar(s, star).newReview.rating)[k] <==> k < star
  {
  }

  /** The number of filled stars: the rating clamped to 0..5. */
  function FilledCount(filled: seq<bool>): nat
    decreases |filled|
  {
    if filled == [] then 0 else (if filled[0] then 1 else 0) + FilledCount(filled[1..])
  }

  lemma FilledCountOfStarRating(rating: int)
    ensures FilledCount(StarRating(rating)) == if rating < 0 then 0 else if rating > 5 then 5 else rating
  {
    var f := StarRating(rating);
    var b := (k: int) => if k + 1 <= rating then 1 else 0;
    assert FilledCount(f[4..]) == b(4) by { assert f[4..][1..] == []; }
    assert FilledCount(f[3..]) == b(3) + FilledCount(f[4..]) by { assert f[3..][1..] == f[4..]; }
    assert FilledCount(f[2..]) == b(2) + FilledCount(f[3..]) by { assert f[2..][1..] == f[3..]; }
    assert FilledCount(f[1..]) == b(1) + FilledCount(f[2..]) by { assert f[1..][1..] == f[2..]; }
  }

  /** `filteredReviews`: every review for 'all', otherwise those of the selected category. */
  function FilteredReviews(reviews: seq<Review>, selected: string): (r: seq<Review>)
    ensures selected == "all" ==> r == reviews
    ensures selected != "all" ==>
      && (forall k :: 0 <= k < |r| ==> r[k] in reviews && r[k].category == selected)
      && (forall k :: 0 <= k < |reviews| && reviews[k].category == selected ==> reviews[k] in r)
  {
    if selected == "all" then reviews else Lists.Filter(reviews, (x: Review) => x.category == selected)
  }

  /** The filter keeps the list's order and multiplicity: it distributes over
      concatenation and keeps a single review exactly when it passes. */
  lemma FilteredReviewsKeepsOrder(a: seq<Review>, b: seq<Review>, x: Review, selected: string)
    ensures FilteredReviews(a + b, selected) == FilteredReviews(a, selected) + FilteredReviews(b, selected)
    ensures FilteredReviews([x], selected) == if selected == "all" || x.category == selected then [x] else []
  {
    if selected != "all" {
      Lists.FilterSplits(a, b, x, (y: Review) => y.category == selected);
    }
  }

  /** A required field (title, content or location) is blank after trimming:
      the Submit button is disabled and `handleSubmitReview` refuses. */
  predicate SubmitDisabled(f: NewReview) {
    Text.IsBlank(f.title) || Text.IsBlank(f.content) || Text.IsBlank(f.location)
  }

  /** `handleSubmitReview`: refused when a required field is blank; otherwise
      the form goes back to rating 5, category 'destination' and empty text,
      and the form view closes. The review list is not changed. */
  function HandleSubmitReview(s: ReviewsState): (r: ReviewsState)
    ensures SubmitDisabled(s.newReview) ==> r == s
    ensures !SubmitDisabled(s.newReview) ==>
      r.newReview == EmptyForm && !r.showWriteReview && r.selectedCategory == s.selectedCategory
  {
    if SubmitDisabled(s.newReview) then s
    else s.(newReview := EmptyForm, showWriteReview := false)
  }

  /** The button's disabled state and the handler's check agree: a press on an
      enabled button always leaves the form view, and the reset form is
      itself not submittable. */
  lemma ButtonMatchesHandler(s: ReviewsState)
    requires s.showWriteReview
    ensures !HandleSubmitReview(s).showWriteReview <==> !SubmitDisabled(s.newReview)
    ensures SubmitDisabled(EmptyForm)
  {
  }

  function RatingOf(r: Review): int { r.rating }

  /** The "Avg Rating" statistic; None stands for the NaN of an empty selection. */
  function AverageRating(reviews: seq<Review>): (avg: Option<real>)
    ensures reviews == [] <==> avg.None?
    ensures avg.Some? ==> avg.value * |reviews| as real == Lists.Sum(reviews, RatingOf) as real
  {
    if reviews == [] then None else Some(Lists.Sum(reviews, RatingOf) as real / |reviews| as real)
  }

  /** Ratings from 1 to 5 average to a value from 1 to 5. */
  lemma AverageInRange(reviews: seq<Review>)
    requires reviews != []
    requires forall k :: 0 <= k < |reviews| ==> 1 <= reviews[k].rating <= 5
    ensures 1.0 <= AverageRating(reviews).value <= 5.0
  {
    RatingSumBounds(reviews);
    QuotientBounds(Lists.Sum(reviews, RatingOf) as real, |reviews| as real);
  }

  /** A sum between n and 5n, divided by n > 0, lies between 1 and 5. */
  lemma QuotientBounds(sum: real, n: real)
    requires n > 0.0 && n <= sum <= 5.0 * n
    ensures 1.0 <= sum / n <= 5.0
  {
    var q := sum / n;
    assert q * n == sum;
    MultiplyCancels(q, 1.0, n);
    MultiplyCancels(5.0, q, n);
  }

  /** A positive factor can be cancelled from an inequality. */
  lemma MultiplyCancels(a: real, b: real, n: real)
    requires n > 0.0 && a * n >= b * n
    ensures a >= b
  {
    assert (a - b) * n >= 0.0;
  }

  lemma {:induction false} RatingSumBounds(reviews: seq<Review>)
    requires forall k :: 0 <= k < |reviews| ==> 1 <= reviews[k].rating <= 5
    ensures |reviews| <= Lists.Sum(reviews, RatingOf) <= 5 * |reviews|
    decreases |reviews|
  {
    if reviews != [] {
      assert forall k :: 0 <= k < |reviews[1..]| ==> reviews[1..][k] == reviews[k + 1];
      RatingSumBounds(reviews[1..]);
    }
  }

  /** The statistics card: the number of reviews shown, and how many of them are verified. */
  function ReviewCount(reviews: seq<Review>, selected: string): (n: int)
    ensures 0 <= n <= |reviews|
    ensures selected == "all" ==> n == |reviews|
    ensures selected != "all" ==> n == Lists.Count(reviews, (x: Review) => x.category == selected)
  {
    |FilteredReviews(reviews, selected)|
  }

  function VerifiedCount(reviews: seq<Review>, selected: string): (n: int)
    ensures 0 <= n <= ReviewCount(reviews, selected)
    ensures n == Lists.Count(reviews, (x: Review) => x.verified && (selected == "all" || x.category == selected))
  {
    VerifiedCountIsCount(reviews, selected);
    Lists.Count(FilteredReviews(reviews, selected), (x: Review) => x.verified)
  }

  /** Counting the verified reviews among those shown is counting the reviews
      that are verified and shown. */
  lemma VerifiedCountIsCount(reviews: seq<Review>, selected: string)
    ensures Lists.Count(FilteredReviews(reviews, selected), (x: Review) => x.verified)
         == Lists.Count(reviews, (x: Review) => x.verified && (selected == "all" || x.category == selected))
  {
    var verified := (x: Review) => x.verified;
    var counted := (x: Review) => x.verified && (selected == "all" || x.category == selected);
    if selected == "all" {
      Lists.FilterSameTest(reviews, verified, counted);
    } else {
      Lists.FilterFilter(reviews, (x: Review) => x.category == selected, verified, counted);
    }
  }

  /** No more reviews are verified than shown, and no more shown than exist. */
  lemma StatsBounds(reviews: seq<Review>, selected: string)
    ensures 0 <= VerifiedCount(reviews, selected) <= ReviewCount(reviews, selected) <= |reviews|
  {
  }

  /** On the screen's data: four reviews, three verified, none about transport. */
  lemma StatsOnScreenData()
    ensures ReviewCount(AllReviews, "all") == 4
    ensures VerifiedCount(AllReviews, "all") == 3
    ensures FilteredReviews(AllReviews, "transport") == []
  {
    assert forall k :: 0 <= k < |AllReviews| ==> AllReviews[k].category != "transport";
    assert forall k :: 0 <= k < |AllReviews[1..]| ==> AllReviews[1..][k] == AllReviews[k + 1];
  }
}
