/** The Product model: the catalogue record, the rules its schema enforces on every save,
    and `calculateAverageRating`. */
module ProductModel {
  import opened JsRuntime

  type ProductId = string

  predicate IsLowerHex(c: char)
  {
    '0' <= c <= '9' || 'a' <= c <= 'f'
  }

  /** The string form of an ObjectId, as `_id.toString()` prints it: 24 lower-case
      hexadecimal digits. */
  predicate IsObjectIdString(s: string)
  {
    |s| == 24 && forall k :: 0 <= k < |s| ==> IsLowerHex(s[k])
  }

  /** A review's `_id`, an ObjectId, by its string form. */
  type ReviewId = s: string | IsObjectIdString(s) witness "000000000000000000000000"
  type UserId = string
  type Time = int

  // ---------------------------------------------------------------------------
  // Categories
  // ---------------------------------------------------------------------------

  datatype Category = Birthday | Wedding | Custom | PartyDecorations | CakeTools

  function CategoryName(c: Category): string
  {
    match c
    case Birthday => "birthday"
    case Wedding => "wedding"
    case Custom => "custom"
    case PartyDecorations => "party-decorations"
    case CakeTools => "cake-tools"
  }

  /** The `category` enum: exactly the five names are accepted. */
  function ParseCategory(s: string): (r: Option<Category>)
    ensures r.Some? ==> CategoryName(r.value) == s
    ensures r.None? ==> forall c: Category :: CategoryName(c) != s
  {
    if s == "birthday" then Some(Birthday)
    else if s == "wedding" then Some(Wedding)
    else if s == "custom" then Some(Custom)
    else if s == "party-decorations" then Some(PartyDecorations)
    else if s == "cake-tools" then Some(CakeTools)
    else None
  }

  /** `['birthday', 'wedding', 'custom'].includes(this.category)`: the categories for which
      the cake fields are required. */
  predicate IsCakeCategory(category: string)
  {
    category in ["birthday", "wedding", "custom"]
  }

  /** The cake categories are exactly the valid categories other than decorations and tools. */
  lemma CakeCategories(category: string)
    ensures IsCakeCategory(category) <==>
              ParseCategory(category).Some? && ParseCategory(category).value !in {PartyDecorations, CakeTools}
  {
  }

  // ---------------------------------------------------------------------------
  // Record parts
  // ---------------------------------------------------------------------------

  /** One customer review. */
  datatype Review = Review(id: ReviewId, user: UserId, rating: real, comment: string, createdAt: Time)

  /** `ratings`: the rounded mean and the number of reviews. */
  datatype Ratings = Ratings(average: real, count: nat)

  /** One entry of `images`; `altText` is absent when the request gave no name. */
  datatype Image = Image(url: string, altText: Option<string>, isMain: bool)

  /** `specifications.servings`, `size` and `weight`. */
  datatype Specifications = Specifications(servings: Option<real>, size: Option<string>, weight: Option<real>)

  const NoSpecifications := Specifications(None, None, None)

  /** Every stored field of a product the model keeps, as one value. */
  datatype ProductState = ProductState(name: string, description: string, price: real, category: string,
                                       specs: Specifications, preparationTime: Option<real>, stock: int,
                                       images: seq<Image>, reviews: seq<Review>, ratings: Ratings,
                                       updatedAt: Time)

  // ---------------------------------------------------------------------------
  // Average rating
  // ---------------------------------------------------------------------------

  /** `reviews.reduce((acc, review) => acc + review.rating, 0)`. */
  function RatingSum(reviews: seq<Review>): real
  {
    if |reviews| == 0 then 0.0 else RatingSum(reviews[..|reviews| - 1]) + reviews[|reviews| - 1].rating
  }

  /** The arithmetic mean of the ratings. */
  function MeanRating(reviews: seq<Review>): real
    requires |reviews| > 0
  {
    RatingSum(reviews) / (|reviews| as real)
  }

  /** A number with at most one decimal. */
  predicate HasOneDecimal(x: real)
  {
    ((x * 10.0).Floor as real) == x * 10.0
  }

  /** What `calculateAverageRating` stores: zero and zero without reviews; otherwise the
      count of reviews and the mean rounded half up to one decimal. */
  function AverageRating(reviews: seq<Review>): (r: Ratings)
    ensures |reviews| == 0 ==> r == Ratings(0.0, 0)
    ensures r.count == |reviews|
    ensures |reviews| > 0 ==> HasOneDecimal(r.average)
    ensures |reviews| > 0 ==> r.average - 0.05 <= MeanRating(reviews) < r.average + 0.05
  {
    if |reviews| == 0 then Ratings(0.0, 0)
    else
      var tenths := MathRound(RatingSum(reviews) / (|reviews| as real) * 10.0);
      Ratings(tenths as real / 10.0, |reviews|)
  }

  /** A rating allowed by the review schema. */
  predicate RatingInRange(rating: real)
  {
    1.0 <= rating <= 5.0
  }

  predicate AllRatingsInRange(reviews: seq<Review>)
  {
    forall i :: 0 <= i < |reviews| ==> RatingInRange(reviews[i].rating)
  }

  lemma {:induction false} RatingSumBounds(reviews: seq<Review>)
    requires AllRatingsInRange(reviews)
    ensures (|reviews| as real) <= RatingSum(reviews) <= 5.0 * (|reviews| as real)
  {
    if |reviews| > 0 {
      RatingSumBounds(reviews[..|reviews| - 1]);
      assert RatingInRange(reviews[|reviews| - 1].rating);
    }
  }

  /** A sum of `n` values in 1..5 divided by `n` lies in 1..5. */
  lemma QuotientBounds(sum: real, n: real)
    requires n > 0.0 && n <= sum <= 5.0 * n
    ensures 1.0 <= sum / n <= 5.0
  {
    QuotientAtLeastOne(sum, n);
    QuotientAtMostFive(sum, n);
  }

  lemma QuotientAtLeastOne(sum: real, n: real)
    requires n > 0.0 && n <= sum
    ensures 1.0 <= sum / n
  {
    var q := sum / n;
    assert q * n == sum;
  }

  lemma QuotientAtMostFive(sum: real, n: real)
    requires n > 0.0 && sum <= 5.0 * n
    ensures sum / n <= 5.0
  {
    var q := sum / n;
    assert q * n == sum;
  }

  /** The mean of ratings that lie in 1..5 lies in 1..5, and so does its rounding. */
  lemma AverageBetweenOneAndFive(reviews: seq<Review>)
    requires |reviews| > 0 && AllRatingsInRange(reviews)
    ensures 1.0 <= AverageRating(reviews).average <= 5.0
  {
    RatingSumBounds(reviews);
    var n := |reviews| as real;
    var mean := MeanRating(reviews);
    QuotientBounds(RatingSum(reviews), n);
    var tenths := MathRound(mean * 10.0);
    assert 10 <= tenths <= 50;
  }

  // ---------------------------------------------------------------------------
  // Schema rules
  // ---------------------------------------------------------------------------

  /** The bound the schema declares on `ratings.average`: between 1 and 5. */
  predicate SchemaRatingsBound(r: Ratings)
  {
    1.0 <= r.average <= 5.0
  }

  /** The bound `ratings.average` evidently needs: between 1 and 5, or the 0 that stands for
      "no reviews yet" (the schema default and what `calculateAverageRating` stores then). */
  predicate RatingsBound(r: Ratings)
  {
    (r.count == 0 && r.average == 0.0) || 1.0 <= r.average <= 5.0
  }

  /** As written, the ratings of a product without reviews break the schema's own bound:
      removing the last review cannot be saved. */
  lemma NoReviewsBreakSchemaBound(reviews: seq<Review>)
    requires |reviews| == 0
    ensures !SchemaRatingsBound(AverageRating(reviews))
    ensures RatingsBound(AverageRating(reviews))
  {
  }

  /** With the corrected bound, whatever `calculateAverageRating` computes from valid
      ratings is accepted. */
  lemma AverageRatingWithinBound(reviews: seq<Review>)
    requires AllRatingsInRange(reviews)
    ensures RatingsBound(AverageRating(reviews))
  {
    if |reviews| > 0 {
      AverageBetweenOneAndFive(reviews);
    }
  }

  /** A review subdocument the schema accepts. */
  predicate ReviewValid(r: Review)
  {
    r.user != "" && RatingInRange(r.rating) && r.comment != "" && |r.comment| <= 500
  }

  predicate ReviewsValid(reviews: seq<Review>)
  {
    forall i :: 0 <= i < |reviews| ==> ReviewValid(reviews[i])
  }

  /** servings, size, weight and preparationTime are all given (a required string must
      also be non-empty). */
  predicate CakeFieldsPresent(p: ProductState)
  {
    p.specs.servings.Some? && p.specs.size.Some? && p.specs.size.value != ""
    && p.specs.weight.Some? && p.preparationTime.Some?
  }

  /** Everything the schema checks on save. */
  predicate SchemaValid(p: ProductState)
  {
    && p.name != "" && |p.name| <= 100
    && p.description != "" && |p.description| <= 2000
    && p.price >= 0.0
    && ParseCategory(p.category).Some?
    && (IsCakeCategory(p.category) ==> CakeFieldsPresent(p))
    && p.stock >= 0
    && (forall i :: 0 <= i < |p.images| ==> p.images[i].url != "")
    && ReviewsValid(p.reviews)
    && SchemaRatingsBound(p.ratings)
  }

  /** As written, a product whose ratings are those of no reviews (the schema defaults, or
      what `calculateAverageRating` stores once the last review is gone) fails the schema. */
  lemma SchemaRejectsUnreviewedProduct(p: ProductState)
    requires p.reviews == [] && p.ratings == AverageRating(p.reviews)
    ensures !SchemaValid(p)
  {
    NoReviewsBreakSchemaBound(p.reviews);
  }

  /** The cake fields may be left out exactly when the category is not a cake category. */
  lemma CakeFieldsRequiredIffCake(p: ProductState)
    requires SchemaValid(p)
    ensures SchemaValid(p.(specs := NoSpecifications, preparationTime := None)) <==> !IsCakeCategory(p.category)
  {
  }

  // ---------------------------------------------------------------------------
  // The stored record
  // ---------------------------------------------------------------------------

  class Product {
    const id: ProductId
    var name: string
    var description: string
    var price: real
    var category: string
    var specs: Specifications
    var preparationTime: Option<real>
    var stock: int
    var images: seq<Image>
    var reviews: seq<Review>
    var ratings: Ratings
    var updatedAt: Time

    ghost function State(): ProductState
      reads this
    {
      ProductState(name, description, price, category, specs, preparationTime, stock, images,
                   reviews, ratings, updatedAt)
    }

    /** `calculateAverageRating`: recomputes `ratings` from the reviews, which it only reads. */
    method CalculateAverageRating()
      modifies this`ratings
      ensures ratings == AverageRating(reviews)
      ensures State() == old(State()).(ratings := AverageRating(reviews))
    {
      if |reviews| == 0 {
        ratings := Ratings(0.0, 0);
      } else {
        var total := RatingSum(reviews);
        ratings := Ratings(MathRound(total / (|reviews| as real) * 10.0) as real / 10.0, |reviews|);
      }
    }
  }
}
