/** The product controller: how `getProducts` turns the query string into a filter, a field
    list, a sort order and pagination links; the image lists built from uploads; and the
    rules of adding, updating and deleting a review. */
module ProductController {
  import opened JsRuntime
  import opened Http
  import opened ProductModel

  // ---------------------------------------------------------------------------
  // The filter: control keys removed
  // ---------------------------------------------------------------------------

  /** `removeFields`, in the order they are deleted. */
  const ControlKeys: seq<string> := ["select", "sort", "page", "limit", "search"]

  /** `removeFields.forEach(param => delete reqQuery[param])` on a copy of the query:
      exactly the control keys are dropped and every other value is kept as it was. */
  method StripControlKeys<V>(query: map<string, V>) returns (filter: map<string, V>)
    ensures filter.Keys == query.Keys - set k | k in ControlKeys
    ensures forall k :: k in filter ==> filter[k] == query[k]
  {
    filter := query;
    for i := 0 to |ControlKeys|
      invariant filter.Keys == query.Keys - set k | k in ControlKeys[..i]
      invariant forall k :: k in filter ==> filter[k] == query[k]
    {
      filter := filter - {ControlKeys[i]};
      assert ControlKeys[..i + 1] == ControlKeys[..i] + [ControlKeys[i]];
    }
  }

  // ---------------------------------------------------------------------------
  // The filter: comparison operators
  // ---------------------------------------------------------------------------

  /** The characters of `\w`. */
  predicate IsWordChar(c: char)
  {
    ('a' <= c <= 'z') || ('A' <= c <= 'Z') || ('0' <= c <= '9') || c == '_'
  }

  /** The longest run of word characters at the start of `s`. */
  function WordPrefix(s: string): (w: string)
    ensures |w| <= |s|
  {
    if |s| > 0 && IsWordChar(s[0]) then [s[0]] + WordPrefix(s[1..]) else ""
  }

  /** The word prefix is a prefix, all word characters, and ends where they end. */
  lemma {:induction false} WordPrefixShape(s: string)
    ensures WordPrefix(s) <= s && forall k :: 0 <= k < |WordPrefix(s)| ==> IsWordChar(WordPrefix(s)[k])
    ensures |WordPrefix(s)| == |s| || !IsWordChar(s[|WordPrefix(s)|])
  {
    if |s| > 0 && IsWordChar(s[0]) {
      WordPrefixShape(s[1..]);
    }
  }

  /** The words `/\b(gt|gte|lt|lte|in)\b/` matches. */
  predicate IsOperator(w: string)
  {
    w == "gt" || w == "gte" || w == "lt" || w == "lte" || w == "in"
  }

  /** A word as the rewrite leaves it: with a `$` in front when it is an operator. */
  function Tagged(w: string): (r: string)
    ensures r == w || r == "$" + w
  {
    if IsOperator(w) then "$" + w else w
  }

  /** A string that ends at a word boundary: empty, or its last character is not a word character. */
  predicate EndsAtBoundary(s: string)
  {
    s == [] || !IsWordChar(s[|s| - 1])
  }

  /** A string that starts at a word boundary. */
  predicate StartsAtBoundary(s: string)
  {
    s == [] || !IsWordChar(s[0])
  }

  /** `queryStr.replace(/\b(gt|gte|lt|lte|in)\b/g, match => '$' + match)`. Between two word
      boundaries lies a whole run of word characters, so the regular expression matches exactly
      the runs that spell an operator, and puts a `$` in front of each. */
  function PrefixOperators(s: string): string
    decreases |s|
  {
    if |s| == 0 then ""
    else if !IsWordChar(s[0]) then [s[0]] + PrefixOperators(s[1..])
    else
      var w := WordPrefix(s);
      Tagged(w) + PrefixOperators(s[|w|..])
  }

  /** Drops every `$` that stands right before a whole operator word. */
  function DropOperatorPrefixes(s: string): string
    decreases |s|
  {
    if |s| == 0 then ""
    else if s[0] == '$' && |s| > 1 && IsWordChar(s[1]) && IsOperator(WordPrefix(s[1..])) then DropOperatorPrefixes(s[1..])
    else if !IsWordChar(s[0]) then [s[0]] + DropOperatorPrefixes(s[1..])
    else
      var w := WordPrefix(s);
      w + DropOperatorPrefixes(s[|w|..])
  }

  lemma {:induction false} WordPrefixOfWordThenBoundary(w: string, u: string)
    requires forall k :: 0 <= k < |w| ==> IsWordChar(w[k])
    requires StartsAtBoundary(u)
    ensures WordPrefix(w + u) == w
  {
    if |w| > 0 {
      assert (w + u)[1..] == w[1..] + u;
      WordPrefixOfWordThenBoundary(w[1..], u);
    } else {
      assert w + u == u;
    }
  }

  /** The rewrite keeps a leading non-word character in place. */
  lemma PrefixOperatorsKeepsBoundary(s: string)
    requires StartsAtBoundary(s)
    ensures StartsAtBoundary(PrefixOperators(s))
    ensures s != [] ==> PrefixOperators(s)[0] == s[0]
  {
  }

  /** One step of the rewrite at a word: the whole run of word characters is tagged. */
  lemma UnfoldAtWord(s: string)
    requires |s| > 0 && IsWordChar(s[0])
    ensures |WordPrefix(s)| > 0
    ensures PrefixOperators(s) == Tagged(WordPrefix(s)) + PrefixOperators(s[|WordPrefix(s)|..])
  {
  }

  /** What the rewrite produces starts with no operator word: either the character was not a
      word character, or a `$` was put in front, or the word is no operator. */
  lemma PrefixedStartsWithNoOperator(t: string)
    requires |PrefixOperators(t)| > 0 && IsWordChar(PrefixOperators(t)[0])
    ensures !IsOperator(WordPrefix(PrefixOperators(t)))
  {
    if !IsWordChar(t[0]) {
      PrefixOperatorsKeepsBoundary(t);
    } else {
      var w := WordPrefix(t);
      WordPrefixShape(t);
      UnfoldAtWord(t);
      PrefixOperatorsKeepsBoundary(t[|w|..]);
      if !IsOperator(w) {
        WordPrefixOfWordThenBoundary(w, PrefixOperators(t[|w|..]));
      }
    }
  }

  /** Dropping past a character that is not a word character keeps it, unless it is a `$`
      in front of an operator word. */
  lemma DropAtNonWord(c: char, rest: string)
    requires !IsWordChar(c)
    requires c == '$' ==> rest == [] || !IsWordChar(rest[0]) || !IsOperator(WordPrefix(rest))
    ensures DropOperatorPrefixes([c] + rest) == [c] + DropOperatorPrefixes(rest)
  {
    assert ([c] + rest)[1..] == rest;
  }

  /** Dropping past a tagged word gives the bare word back. */
  lemma DropAtTaggedWord(w: string, tail: string)
    requires |w| > 0 && forall k :: 0 <= k < |w| ==> IsWordChar(w[k])
    requires StartsAtBoundary(tail)
    ensures DropOperatorPrefixes(Tagged(w) + tail) == w + DropOperatorPrefixes(tail)
  {
    WordPrefixOfWordThenBoundary(w, tail);
    assert (w + tail)[|w|..] == tail;
    if IsOperator(w) {
      var r := "$" + w + tail;
      assert r[1..] == w + tail;
    }
  }

  /** Inserting the `$` prefixes and then dropping them gives the string back: the rewrite
      changes nothing but the inserted characters. */
  lemma {:induction false} DropUndoesPrefix(s: string)
    ensures DropOperatorPrefixes(PrefixOperators(s)) == s
    decreases |s|
  {
    if |s| == 0 {
    } else if !IsWordChar(s[0]) {
      var rest := PrefixOperators(s[1..]);
      assert PrefixOperators(s) == [s[0]] + rest;
      if |rest| > 0 && IsWordChar(rest[0]) {
        PrefixedStartsWithNoOperator(s[1..]);
      }
      DropAtNonWord(s[0], rest);
      DropUndoesPrefix(s[1..]);
      assert [s[0]] + s[1..] == s;
    } else {
      var w := WordPrefix(s);
      WordPrefixShape(s);
      UnfoldAtWord(s);
      PrefixOperatorsKeepsBoundary(s[|w|..]);
      DropAtTaggedWord(w, PrefixOperators(s[|w|..]));
      DropUndoesPrefix(s[|w|..]);
      assert s == w + s[|w|..];
    }
  }

  /** The rewrite works word by word: cut at a word boundary, the pieces are rewritten apart. */
  lemma {:induction false} PrefixOperatorsConcat(a: string, b: string)
    requires EndsAtBoundary(a) || StartsAtBoundary(b)
    ensures PrefixOperators(a + b) == PrefixOperators(a) + PrefixOperators(b)
    decreases |a|
  {
    if |a| == 0 {
      assert a + b == b;
    } else if !IsWordChar(a[0]) {
      PrefixOperatorsConcat(a[1..], b);
      ConcatAtNonWord(a, b);
    } else if |WordPrefix(a)| == |a| {
      ConcatAtLastWord(a, b);
    } else {
      var w := WordPrefix(a);
      PrefixOperatorsConcat(a[|w|..], b);
      ConcatAtInnerWord(a, b);
    }
  }

  /** One step of the rewrite at a character that is not a word character. */
  lemma UnfoldAtNonWord(s: string)
    requires |s| > 0 && !IsWordChar(s[0])
    ensures PrefixOperators(s) == [s[0]] + PrefixOperators(s[1..])
  {
  }

  /** `x == h + (u + v)` and `y == h + u` give `x == y + v`. */
  lemma Regroup(x: string, h: string, u: string, v: string, y: string)
    requires x == h + (u + v) && y == h + u
    ensures x == y + v
  {
  }

  lemma ConcatAtNonWord(a: string, b: string)
    requires |a| > 0 && !IsWordChar(a[0])
    requires PrefixOperators(a[1..] + b) == PrefixOperators(a[1..]) + PrefixOperators(b)
    ensures PrefixOperators(a + b) == PrefixOperators(a) + PrefixOperators(b)
  {
    assert (a + b)[1..] == a[1..] + b;
    UnfoldAtNonWord(a + b);
    UnfoldAtNonWord(a);
    Regroup(PrefixOperators(a + b), [a[0]], PrefixOperators(a[1..]), PrefixOperators(b), PrefixOperators(a));
  }

  lemma ConcatAtLastWord(a: string, b: string)
    requires |a| > 0 && IsWordChar(a[0]) && |WordPrefix(a)| == |a|
    requires EndsAtBoundary(a) || StartsAtBoundary(b)
    ensures PrefixOperators(a + b) == PrefixOperators(a) + PrefixOperators(b)
  {
    WordPrefixShape(a);
    assert WordPrefix(a) == a;
    assert StartsAtBoundary(b) by {
      assert IsWordChar(a[|a| - 1]);
    }
    WordPrefixOfWordThenBoundary(a, b);
    var ab := a + b;
    UnfoldAtWord(ab);
    assert ab[|a|..] == b;
    WholeWordRewrite(a);
  }

  /** A string that is one whole word is rewritten to that word, tagged. */
  lemma WholeWordRewrite(a: string)
    requires |a| > 0 && IsWordChar(a[0]) && WordPrefix(a) == a
    ensures PrefixOperators(a) == Tagged(a)
  {
    UnfoldAtWord(a);
    assert a[|a|..] == [];
    assert Tagged(a) + "" == Tagged(a);
  }

  lemma ConcatAtInnerWord(a: string, b: string)
    requires |a| > 0 && IsWordChar(a[0]) && |WordPrefix(a)| < |a|
    requires PrefixOperators(a[|WordPrefix(a)|..] + b) == PrefixOperators(a[|WordPrefix(a)|..]) + PrefixOperators(b)
    ensures PrefixOperators(a + b) == PrefixOperators(a) + PrefixOperators(b)
  {
    var w := WordPrefix(a);
    WordOfConcat(a, b);
    UnfoldAtWord(a);
    UnfoldAtWord(a + b);
    calc {
      PrefixOperators(a + b);
      Tagged(w) + PrefixOperators(a[|w|..] + b);
      Tagged(w) + PrefixOperators(a[|w|..]) + PrefixOperators(b);
      PrefixOperators(a) + PrefixOperators(b);
    }
  }

  /** A word that ends inside `a` is the first word of `a + b` too. */
  lemma WordOfConcat(a: string, b: string)
    requires |WordPrefix(a)| < |a|
    ensures WordPrefix(a + b) == WordPrefix(a)
    ensures (a + b)[|WordPrefix(a)|..] == a[|WordPrefix(a)|..] + b
  {
    var w := WordPrefix(a);
    WordPrefixShape(a);
    var rest := a[|w|..];
    assert a == w + rest;
    WordPrefixOfWordThenBoundary(w, rest + b);
    assert a + b == w + (rest + b);
  }

  /** A whole word gets its `$` exactly when it is an operator. */
  lemma PrefixOperatorsOfWord(w: string)
    requires |w| > 0 && forall k :: 0 <= k < |w| ==> IsWordChar(w[k])
    ensures PrefixOperators(w) == if IsOperator(w) then "$" + w else w
  {
    WordPrefixOfWordThenBoundary(w, "");
    assert w + "" == w;
    assert WordPrefix(w) == w;
    assert w[|w|..] == [];
  }

  // ---------------------------------------------------------------------------
  // Field lists and sort order
  // ---------------------------------------------------------------------------

  /** `param.split(',').join(' ')`: every comma becomes a space and nothing else changes. */
  function FieldList(param: string): (r: string)
    ensures r == ReplaceChar(param, ',', ' ')
  {
    JoinSplit(param, ',', ' ');
    Join(Split(param, ','), ' ')
  }

  /** The projection: the field list when `select` is given and not empty, none otherwise. */
  function SelectClause(select: Option<string>): (r: Option<string>)
    ensures r.Some? <==> select.Some? && select.value != ""
    ensures r.Some? ==> r.value == ReplaceChar(select.value, ',', ' ')
  {
    if select.Some? && select.value != "" then Some(FieldList(select.value)) else None
  }

  /** The sort order: the field list when `sort` is given and not empty, newest first otherwise. */
  function SortClause(sort: Option<string>): (r: string)
    ensures sort.Some? && sort.value != "" ==> r == ReplaceChar(sort.value, ',', ' ')
    ensures (sort.None? || sort.value == "") ==> r == "-createdAt"
  {
    if sort.Some? && sort.value != "" then FieldList(sort.value) else "-createdAt"
  }

  /** A field list without commas has no commas after the rewrite either, and keeps its length. */
  lemma FieldListHasNoCommas(param: string)
    ensures ',' !in FieldList(param) && |FieldList(param)| == |param|
  {
    var r := FieldList(param);
    assert forall k :: 0 <= k < |r| ==> r[k] != ',';
  }

  // ---------------------------------------------------------------------------
  // Pagination
  // ---------------------------------------------------------------------------

  datatype PageLink = PageLink(page: int, limit: int)

  /** The `pagination` object of the answer. */
  datatype Pagination = Pagination(next: Option<PageLink>, prev: Option<PageLink>)

  /** `startIndex = (page - 1) * limit`. */
  function StartIndex(page: int, limit: int): int { (page - 1) * limit }

  /** `endIndex = page * limit`. */
  function EndIndex(page: int, limit: int): int { page * limit }

  /** The links: `next` when the page ends before the total, `prev` when it starts after 0. */
  function Paginate(page: int, limit: int, total: nat): (r: Pagination)
    ensures r.next.Some? ==> r.next.value == PageLink(page + 1, limit)
    ensures r.prev.Some? ==> r.prev.value == PageLink(page - 1, limit)
  {
    Pagination(if EndIndex(page, limit) < total then Some(PageLink(page + 1, limit)) else None,
               if StartIndex(page, limit) > 0 then Some(PageLink(page - 1, limit)) else None)
  }

  /** The products of one page: `skip(startIndex).limit(limit)` over the matches. */
  function PageOf<T>(matches: seq<T>, page: int, limit: int): (r: seq<T>)
    requires page >= 1 && limit >= 1
    ensures |r| <= limit
  {
    var start := if StartIndex(page, limit) < |matches| then StartIndex(page, limit) else |matches|;
    var end := if start + limit < |matches| then start + limit else |matches|;
    matches[start..end]
  }

  /** For a page and a limit of at least 1, a `next` link is offered exactly when the next page
      holds products, and a `prev` link exactly when this is not the first page; the next page
      starts where this one ends. */
  lemma PaginationLinks<T>(matches: seq<T>, page: int, limit: int)
    requires page >= 1 && limit >= 1
    ensures Paginate(page, limit, |matches|).next.Some? <==> PageOf(matches, page + 1, limit) != []
    ensures Paginate(page, limit, |matches|).prev.Some? <==> page > 1
    ensures StartIndex(page + 1, limit) == EndIndex(page, limit)
  {
    assert StartIndex(page + 1, limit) == page * limit;
    if page > 1 {
      assert (page - 1) * limit >= limit;
    } else {
      assert StartIndex(page, limit) == 0;
    }
  }

  /** A page that lies wholly inside the matches holds `limit` products, and the pages up to
      it are consecutive slices. */
  lemma FullPage<T>(matches: seq<T>, page: int, limit: int)
    requires page >= 1 && limit >= 1 && EndIndex(page, limit) <= |matches|
    ensures PageOf(matches, page, limit) == matches[StartIndex(page, limit)..EndIndex(page, limit)]
    ensures |PageOf(matches, page, limit)| == limit
  {
    assert StartIndex(page, limit) + limit == EndIndex(page, limit);
  }

  // ---------------------------------------------------------------------------
  // Images from uploads
  // ---------------------------------------------------------------------------

  const UploadPrefix := "/uploads/products/"

  /** `files.map((file, index) => ({ url, altText, isMain: index === 0 }))`. */
  function UploadedImages(filenames: seq<string>, altText: Option<string>): (r: seq<Image>)
    ensures |r| == |filenames|
    ensures forall i :: 0 <= i < |r| ==> r[i].url == UploadPrefix + filenames[i] && r[i].altText == altText
    ensures forall i :: 0 <= i < |r| ==> (r[i].isMain <==> i == 0)
  {
    seq(|filenames|, i requires 0 <= i < |filenames| => Image(UploadPrefix + filenames[i], altText, i == 0))
  }

  /** Each image's url gives back its file name, and a non-empty upload has exactly one main
      image, the first. */
  lemma UploadedImagesMain(filenames: seq<string>, altText: Option<string>)
    ensures var r := UploadedImages(filenames, altText);
            forall i :: 0 <= i < |r| ==> r[i].url[|UploadPrefix|..] == filenames[i]
    ensures |filenames| > 0 ==> (set i | 0 <= i < |filenames| && UploadedImages(filenames, altText)[i].isMain) == {0}
  {
    var r := UploadedImages(filenames, altText);
    forall i | 0 <= i < |r| ensures r[i].url[|UploadPrefix|..] == filenames[i] {
      assert r[i].url == UploadPrefix + filenames[i];
    }
  }

  /** `createProduct`: when files were uploaded (even none) they replace the images of the body,
      labelled with the name given. */
  function CreateImages(files: Option<seq<string>>, bodyImages: seq<Image>, bodyName: Option<string>): (r: seq<Image>)
    ensures files.None? ==> r == bodyImages
    ensures files.Some? ==> r == UploadedImages(files.value, bodyName)
  {
    match files
    case None => bodyImages
    case Some(names) => UploadedImages(names, bodyName)
  }

  /** `updateProduct`: a non-empty upload replaces the images (labelled with the new name, or
      the stored one when none is given) and sends every old image to be unlinked; otherwise
      the images are left alone and nothing is unlinked. */
  datatype ImageUpdate = ImageUpdate(images: Option<seq<Image>>, unlinked: seq<string>)

  function UpdateImages(files: Option<seq<string>>, bodyName: Option<string>, product: ProductState): (r: ImageUpdate)
    ensures r.images.Some? <==> files.Some? && |files.value| > 0
    ensures r.images.None? ==> r.unlinked == []
    ensures r.images.Some? ==> (|r.unlinked| == |product.images|
              && forall i :: 0 <= i < |product.images| ==> r.unlinked[i] == product.images[i].url)
    ensures r.images.Some? ==> r.images.value == UploadedImages(files.value,
              Some(if bodyName.Some? && bodyName.value != "" then bodyName.value else product.name))
  {
    if files.Some? && |files.value| > 0 then
      var alt := if bodyName.Some? && bodyName.value != "" then bodyName.value else product.name;
      ImageUpdate(Some(UploadedImages(files.value, Some(alt))),
                  seq(|product.images|, i requires 0 <= i < |product.images| => product.images[i].url))
    else ImageUpdate(None, [])
  }

  /** What `deleteProduct` leaves: its answer, the products that remain and the image paths
      sent to be unlinked, in order. */
  datatype ProductDeletion = ProductDeletion(response: Response, remaining: map<ProductId, ProductState>,
                                             unlinked: seq<string>)

  /** `deleteProduct`: 404 when the id names no product; otherwise every image of the product
      is sent to be unlinked, the product is removed and the answer is 200. */
  function DeleteProduct(catalog: map<ProductId, ProductState>, id: ProductId): (r: ProductDeletion)
    ensures id !in catalog ==> r == ProductDeletion(Fail(404, "Product not found"), catalog, [])
    ensures id in catalog ==> r.response == Ok(200) && id !in r.remaining
    ensures forall other :: other in catalog && other != id ==> other in r.remaining && r.remaining[other] == catalog[other]
    ensures r.remaining.Keys <= catalog.Keys
    ensures id in catalog ==> (|r.unlinked| == |catalog[id].images|
              && forall i :: 0 <= i < |catalog[id].images| ==> r.unlinked[i] == catalog[id].images[i].url)
  {
    if id !in catalog then ProductDeletion(Fail(404, "Product not found"), catalog, [])
    else
      var images := catalog[id].images;
      ProductDeletion(Ok(200), catalog - {id},
                      seq(|images|, i requires 0 <= i < |images| => images[i].url))
  }

  /** Deleting a product unlinks exactly the images an update with new uploads would unlink. */
  lemma DeleteUnlinksAsUpdate(catalog: map<ProductId, ProductState>, id: ProductId,
                              files: seq<string>, bodyName: Option<string>)
    requires id in catalog && |files| > 0
    ensures DeleteProduct(catalog, id).unlinked == UpdateImages(Some(files), bodyName, catalog[id]).unlinked
  {
    var d := DeleteProduct(catalog, id).unlinked;
    var u := UpdateImages(Some(files), bodyName, catalog[id]).unlinked;
    assert |d| == |u|;
    forall i | 0 <= i < |d| ensures d[i] == u[i] {
    }
  }

  /** A product once deleted is not found again: a second delete answers 404, unlinks nothing
      and leaves the remaining products as the first left them. */
  lemma SecondDeleteNotFound(catalog: map<ProductId, ProductState>, id: ProductId)
    ensures var once := DeleteProduct(catalog, id);
            DeleteProduct(once.remaining, id) == ProductDeletion(Fail(404, "Product not found"), once.remaining, [])
  {
  }

  // ---------------------------------------------------------------------------
  // Reviews: the rules
  // ---------------------------------------------------------------------------

  /** Where a review handler ends: answered before saving, or saved with these reviews. */
  datatype ReviewOutcome = Rejected(response: Response) | Saved(reviews: seq<Review>, status: int)

  function OutcomeResponse(o: ReviewOutcome): Response
  {
    match o
    case Rejected(r) => r
    case Saved(_, status) => Ok(status)
  }

  /** What a save stores: the reviews, their recomputed ratings and the timestamp, or the
      record as it was when nothing was saved. */
  function AfterOutcome(s: ProductState, o: ReviewOutcome, now: Time): ProductState
  {
    match o
    case Rejected(_) => s
    case Saved(reviews, _) => s.(reviews := reviews, ratings := AverageRating(reviews), updatedAt := now)
  }

  /** The paths a review handler changes pass validation on save, under the schema's
      declared bound on `ratings.average`. */
  function ReviewSaveAccepted(reviews: seq<Review>): (ok: bool)
    ensures ok ==> ReviewsValid(reviews) && |reviews| > 0
  {
    NoReviewsBreakSchemaBound([]);
    ReviewsValid(reviews) && SchemaRatingsBound(AverageRating(reviews))
  }

  /** Valid reviews have an average in 1..5; AllRatingsInRange follows from ReviewsValid. */
  lemma ValidReviewsRatingsInRange(reviews: seq<Review>)
    requires ReviewsValid(reviews)
    ensures AllRatingsInRange(reviews)
  {
    forall i | 0 <= i < |reviews| ensures RatingInRange(reviews[i].rating) {
      assert ReviewValid(reviews[i]);
    }
  }

  /** As written, a save of at least one review is accepted exactly when the reviews are
      valid, and a save of none is always refused. */
  lemma ReviewSaveAcceptedIffValid(reviews: seq<Review>)
    ensures |reviews| > 0 ==> (ReviewSaveAccepted(reviews) <==> ReviewsValid(reviews))
    ensures |reviews| == 0 ==> !ReviewSaveAccepted(reviews)
  {
    if |reviews| > 0 && ReviewsValid(reviews) {
      ValidReviewsRatingsInRange(reviews);
      AverageBetweenOneAndFive(reviews);
    }
  }

  /** The save check under the corrected bound, which admits the ratings of no reviews. */
  predicate CorrectedSaveAccepted(reviews: seq<Review>)
  {
    ReviewsValid(reviews) && RatingsBound(AverageRating(reviews))
  }

  /** Under the corrected bound, the save check is exactly review validity, the empty list
      included. */
  lemma CorrectedSaveAcceptedIffValid(reviews: seq<Review>)
    ensures CorrectedSaveAccepted(reviews) <==> ReviewsValid(reviews)
    ensures ReviewSaveAccepted(reviews) ==> CorrectedSaveAccepted(reviews)
  {
    if ReviewsValid(reviews) {
      ValidReviewsRatingsInRange(reviews);
      AverageRatingWithinBound(reviews);
    }
  }

  predicate ReviewedBy(reviews: seq<Review>, user: UserId)
  {
    exists i :: 0 <= i < |reviews| && reviews[i].user == user
  }

  /** The one-review-per-user invariant. */
  predicate OneReviewPerUser(reviews: seq<Review>)
  {
    forall i, j :: 0 <= i < j < |reviews| ==> reviews[i].user != reviews[j].user
  }

  /** `addProductReview` after the product was found. `rating` is `Number(req.body.rating)`
      (absent when NaN) and `comment` the comment sent, if any. */
  function AddReview(reviews: seq<Review>, caller: UserId, rating: Option<real>, comment: Option<string>,
                     id: ReviewId, now: Time): (r: ReviewOutcome)
    ensures ReviewedBy(reviews, caller) ==> r == Rejected(Fail(400, "Product already reviewed"))
    ensures r.Saved? ==> (rating.Some? && comment.Some?
              && r.reviews == reviews + [Review(id, caller, rating.value, comment.value, now)] && r.status == 201)
    ensures r.Saved? <==> (!ReviewedBy(reviews, caller) && rating.Some? && comment.Some?
              && ReviewSaveAccepted(reviews + [Review(id, caller, rating.value, comment.value, now)]))
    ensures r.Rejected? && !ReviewedBy(reviews, caller) ==> r == Rejected(Fail(500, "Server Error"))
  {
    if ReviewedBy(reviews, caller) then Rejected(Fail(400, "Product already reviewed"))
    else if rating.None? || comment.None? then Rejected(Fail(500, "Server Error"))
    else
      var added := reviews + [Review(id, caller, rating.value, comment.value, now)];
      if ReviewSaveAccepted(added) then Saved(added, 201) else Rejected(Fail(500, "Server Error"))
  }

  /** Adding keeps one review per user, and the same user adding again is turned away. */
  lemma AddKeepsOneReviewPerUser(reviews: seq<Review>, caller: UserId, rating: Option<real>, comment: Option<string>,
                                 id: ReviewId, now: Time, again: Option<real>, id2: ReviewId, later: Time)
    requires OneReviewPerUser(reviews)
    requires AddReview(reviews, caller, rating, comment, id, now).Saved?
    ensures OneReviewPerUser(AddReview(reviews, caller, rating, comment, id, now).reviews)
    ensures AddReview(AddReview(reviews, caller, rating, comment, id, now).reviews, caller, again, comment, id2, later)
            == Rejected(Fail(400, "Product already reviewed"))
  {
    var added := AddReview(reviews, caller, rating, comment, id, now).reviews;
    assert added[|reviews|].user == caller;
  }

  predicate IsHexDigit(c: char)
  {
    IsLowerHex(c) || 'A' <= c <= 'F'
  }

  function LowerHexDigit(c: char): (l: char)
    requires IsHexDigit(c)
    ensures IsLowerHex(l)
    ensures IsLowerHex(c) ==> l == c
    ensures 'A' <= c <= 'F' ==> l as int == c as int + 32
  {
    if 'A' <= c <= 'F' then (c as int - 'A' as int + 'a' as int) as char else c
  }

  /** `castObjectId(reviewId).toString()`, the form `reviews.id(reviewId)` compares: 24
      hexadecimal digits in either case spell an ObjectId, printed in lower case; anything
      else does not cast, and then no review matches. */
  function CastObjectId(raw: string): (r: Option<ReviewId>)
    ensures r.Some? <==> |raw| == 24 && forall k :: 0 <= k < 24 ==> IsHexDigit(raw[k])
    ensures r.Some? ==> forall k :: 0 <= k < 24 ==> r.value[k] == LowerHexDigit(raw[k])
    ensures IsObjectIdString(raw) ==> r == Some(raw)
  {
    if |raw| == 24 && forall k :: 0 <= k < 24 ==> IsHexDigit(raw[k]) then
      var id := seq(24, k requires 0 <= k < 24 => LowerHexDigit(raw[k]));
      assert IsObjectIdString(id);
      assert IsObjectIdString(raw) ==> id == raw;
      Some(id)
    else None
  }

  /** Two spellings of a parameter that differ only in the case of their letters cast to
      the same review id. */
  lemma CastIgnoresCase(a: string, b: string)
    requires |a| == |b| && CastObjectId(a).Some?
    requires forall k :: 0 <= k < |a| ==> b[k] == a[k] || ('A' <= b[k] <= 'F' && b[k] as int == a[k] as int - 32)
    ensures CastObjectId(b) == CastObjectId(a)
  {
    assert forall k :: 0 <= k < 24 ==> IsHexDigit(b[k]) && LowerHexDigit(b[k]) == LowerHexDigit(a[k]);
    assert CastObjectId(b).value == CastObjectId(a).value;
  }

  /** The index of the first review with that id. */
  function IndexOfReview(reviews: seq<Review>, id: ReviewId): (r: Option<nat>)
    ensures r.Some? ==> r.value < |reviews| && reviews[r.value].id == id
                        && forall j :: 0 <= j < r.value ==> reviews[j].id != id
    ensures r.None? ==> forall j :: 0 <= j < |reviews| ==> reviews[j].id != id
  {
    if |reviews| == 0 then None
    else if reviews[0].id == id then Some(0)
    else match IndexOfReview(reviews[1..], id)
         case None => None
         case Some(k) => Some(k + 1)
  }

  /** `reviews.id(reviewId)`: the first review whose id is the ObjectId the parameter casts
      to. */
  function FindReview(reviews: seq<Review>, raw: string): (r: Option<nat>)
    ensures r.Some? ==> r.value < |reviews| && CastObjectId(raw) == Some(reviews[r.value].id)
                        && forall j :: 0 <= j < r.value ==> CastObjectId(raw) != Some(reviews[j].id)
    ensures r.None? ==> forall j :: 0 <= j < |reviews| ==> CastObjectId(raw) != Some(reviews[j].id)
  {
    match CastObjectId(raw)
    case None => None
    case Some(id) => IndexOfReview(reviews, id)
  }

  /** `Number(req.body.rating) || review.rating` and `req.body.comment || review.comment`:
      NaN and 0 keep the old rating, a missing or empty comment keeps the old comment. */
  function RevisedReview(prior: Review, rating: Option<real>, comment: Option<string>): (r: Review)
    ensures r.id == prior.id && r.user == prior.user && r.createdAt == prior.createdAt
    ensures r.rating == (if rating.Some? && rating.value != 0.0 then rating.value else prior.rating)
    ensures r.comment == (if comment.Some? && comment.value != "" then comment.value else prior.comment)
  {
    prior.(rating := if rating.Some? && rating.value != 0.0 then rating.value else prior.rating,
         comment := if comment.Some? && comment.value != "" then comment.value else prior.comment)
  }

  /** `updateProductReview` after the product was found. */
  function UpdateReview(reviews: seq<Review>, id: string, caller: UserId, rating: Option<real>,
                        comment: Option<string>): (r: ReviewOutcome)
    ensures FindReview(reviews, id).None? ==> r == Rejected(Fail(404, "Review not found"))
    ensures FindReview(reviews, id).Some? && reviews[FindReview(reviews, id).value].user != caller ==>
              r == Rejected(Fail(401, "Not authorized to update this review"))
    ensures r.Saved? ==> (FindReview(reviews, id).Some? && r.status == 200
              && r.reviews == reviews[FindReview(reviews, id).value := RevisedReview(reviews[FindReview(reviews, id).value], rating, comment)])
    ensures r.Saved? <==> (FindReview(reviews, id).Some? && reviews[FindReview(reviews, id).value].user == caller
              && ReviewSaveAccepted(reviews[FindReview(reviews, id).value := RevisedReview(reviews[FindReview(reviews, id).value], rating, comment)]))
  {
    match FindReview(reviews, id)
    case None => Rejected(Fail(404, "Review not found"))
    case Some(i) =>
      if reviews[i].user != caller then Rejected(Fail(401, "Not authorized to update this review"))
      else
        var revised := reviews[i := RevisedReview(reviews[i], rating, comment)];
        if ReviewSaveAccepted(revised) then Saved(revised, 200) else Rejected(Fail(500, "Server Error"))
  }

  /** An update touches the caller's review only: every other review, and the order, stay. */
  lemma UpdateTouchesOnlyTarget(reviews: seq<Review>, id: string, caller: UserId, rating: Option<real>,
                                comment: Option<string>, j: nat)
    requires UpdateReview(reviews, id, caller, rating, comment).Saved?
    requires j < |reviews| && CastObjectId(id) != Some(reviews[j].id)
    ensures |UpdateReview(reviews, id, caller, rating, comment).reviews| == |reviews|
    ensures UpdateReview(reviews, id, caller, rating, comment).reviews[j] == reviews[j]
  {
  }

  /** `reviews.filter(review => review._id.toString() !== reviewId)`. */
  function RemoveReview(reviews: seq<Review>, id: string): (r: seq<Review>)
    ensures |r| <= |reviews|
    ensures forall k :: 0 <= k < |r| ==> r[k].id != id
  {
    if |reviews| == 0 then []
    else (if reviews[0].id == id then [] else [reviews[0]]) + RemoveReview(reviews[1..], id)
  }

  /** Removal works piece by piece, so the remaining reviews keep their order. */
  lemma {:induction false} RemoveReviewConcat(a: seq<Review>, b: seq<Review>, id: string)
    ensures RemoveReview(a + b, id) == RemoveReview(a, id) + RemoveReview(b, id)
  {
    if |a| == 0 {
      assert a + b == b;
    } else {
      assert (a + b)[1..] == a[1..] + b;
      RemoveReviewConcat(a[1..], b, id);
    }
  }

  /** Exactly the reviews with another id remain. */
  lemma {:induction false} RemoveReviewKeeps(reviews: seq<Review>, id: string, x: Review)
    ensures x in RemoveReview(reviews, id) <==> x in reviews && x.id != id
  {
    if |reviews| > 0 {
      RemoveReviewKeeps(reviews[1..], id, x);
      assert reviews == [reviews[0]] + reviews[1..];
    }
  }

  /** Without such a review nothing is removed. */
  lemma {:induction false} RemoveAbsentReview(reviews: seq<Review>, id: string)
    requires forall k :: 0 <= k < |reviews| ==> reviews[k].id != id
    ensures RemoveReview(reviews, id) == reviews
  {
    if |reviews| > 0 {
      RemoveAbsentReview(reviews[1..], id);
      assert reviews == [reviews[0]] + reviews[1..];
    }
  }

  /** `deleteProductReview` after the product was found: the review is looked up by the
      ObjectId the parameter casts to, and the owner of the review or an admin then keeps the
      reviews whose id differs from the parameter as sent. */
  function DeleteReview(reviews: seq<Review>, id: string, caller: Caller): (r: ReviewOutcome)
    ensures FindReview(reviews, id).None? ==> r == Rejected(Fail(404, "Review not found"))
    ensures FindReview(reviews, id).Some? && !OwnerOrAdmin(reviews[FindReview(reviews, id).value].user, caller) ==>
              r == Rejected(Fail(401, "Not authorized to delete this review"))
    ensures r.Saved? ==> (r.reviews == RemoveReview(reviews, id) && r.status == 200
                         && (IsObjectIdString(id) ==> |r.reviews| < |reviews|))
    ensures r.Saved? && !IsObjectIdString(id) ==> r.reviews == reviews
    ensures r.Saved? <==> (FindReview(reviews, id).Some? && OwnerOrAdmin(reviews[FindReview(reviews, id).value].user, caller)
                          && ReviewSaveAccepted(RemoveReview(reviews, id)))
    ensures (FindReview(reviews, id).Some? && OwnerOrAdmin(reviews[FindReview(reviews, id).value].user, caller)
             && !ReviewSaveAccepted(RemoveReview(reviews, id))) ==> r == Rejected(Fail(500, "Server Error"))
  {
    match FindReview(reviews, id)
    case None => Rejected(Fail(404, "Review not found"))
    case Some(i) =>
      if !OwnerOrAdmin(reviews[i].user, caller) then Rejected(Fail(401, "Not authorized to delete this review"))
      else
        var kept := RemoveReview(reviews, id);
        RemovalBySpelling(reviews, id, i);
        if ReviewSaveAccepted(kept) then Saved(kept, 200) else Rejected(Fail(500, "Server Error"))
  }

  /** As written, removing a product's only review cannot be saved: the request answers 500
      and the review stays. */
  lemma LastReviewDeleteFails(review: Review, caller: Caller)
    requires OwnerOrAdmin(review.user, caller)
    ensures DeleteReview([review], review.id, caller) == Rejected(Fail(500, "Server Error"))
  {
    assert FindReview([review], review.id) == Some(0);
    assert RemoveReview([review], review.id) == [] by {
      assert RemoveReview([review][1..], review.id) == [];
    }
  }

  /** `deleteProductReview` under the corrected bound on `ratings.average`: a deletion the
      owner or an admin asks for is saved whenever the reviews left are valid, none left
      included. */
  function DeleteReviewCorrected(reviews: seq<Review>, id: string, caller: Caller): (r: ReviewOutcome)
    ensures FindReview(reviews, id).None? ==> r == Rejected(Fail(404, "Review not found"))
    ensures FindReview(reviews, id).Some? && !OwnerOrAdmin(reviews[FindReview(reviews, id).value].user, caller) ==>
              r == Rejected(Fail(401, "Not authorized to delete this review"))
    ensures r.Saved? ==> r.reviews == RemoveReview(reviews, id) && r.status == 200
    ensures r.Saved? <==> (FindReview(reviews, id).Some? && OwnerOrAdmin(reviews[FindReview(reviews, id).value].user, caller)
                          && ReviewsValid(RemoveReview(reviews, id)))
    ensures DeleteReview(reviews, id, caller).Saved? ==> r == DeleteReview(reviews, id, caller)
  {
    match FindReview(reviews, id)
    case None => Rejected(Fail(404, "Review not found"))
    case Some(i) =>
      if !OwnerOrAdmin(reviews[i].user, caller) then Rejected(Fail(401, "Not authorized to delete this review"))
      else
        var kept := RemoveReview(reviews, id);
        CorrectedSaveAcceptedIffValid(kept);
        if CorrectedSaveAccepted(kept) then Saved(kept, 200) else Rejected(Fail(500, "Server Error"))
  }

  /** Under the corrected bound, removing a product's only review is saved and leaves none. */
  lemma LastReviewDeleteCorrected(review: Review, caller: Caller)
    requires OwnerOrAdmin(review.user, caller)
    ensures DeleteReviewCorrected([review], review.id, caller) == Saved([], 200)
  {
    assert FindReview([review], review.id) == Some(0);
    assert RemoveReview([review], review.id) == [] by {
      assert RemoveReview([review][1..], review.id) == [];
    }
  }

  /** The filter compares the stored ids with the parameter as sent: spelled as stored, it
      removes the review found; spelled otherwise, it removes nothing. */
  lemma RemovalBySpelling(reviews: seq<Review>, id: string, i: nat)
    requires i < |reviews| && CastObjectId(id) == Some(reviews[i].id)
    ensures IsObjectIdString(id) ==> |RemoveReview(reviews, id)| < |reviews|
    ensures !IsObjectIdString(id) ==> RemoveReview(reviews, id) == reviews
  {
    if IsObjectIdString(id) {
      RemoveShrinks(reviews, id, i);
    } else {
      RemoveAbsentReview(reviews, id);
    }
  }

  lemma {:induction false} RemoveShrinks(reviews: seq<Review>, id: string, i: nat)
    requires i < |reviews| && reviews[i].id == id
    ensures |RemoveReview(reviews, id)| < |reviews|
  {
    if i > 0 {
      RemoveShrinks(reviews[1..], id, i - 1);
    }
  }

  /** After a deletion by the id as stored the review is gone: updating or deleting it
      again finds nothing. */
  lemma DeletedReviewIsGone(reviews: seq<Review>, id: string, caller: Caller, user: UserId,
                            rating: Option<real>, comment: Option<string>)
    requires DeleteReview(reviews, id, caller).Saved? && IsObjectIdString(id)
    ensures UpdateReview(DeleteReview(reviews, id, caller).reviews, id, user, rating, comment)
            == Rejected(Fail(404, "Review not found"))
    ensures DeleteReview(DeleteReview(reviews, id, caller).reviews, id, caller) == Rejected(Fail(404, "Review not found"))
  {
  }

  /** A deletion by another spelling of the id finds the review and answers 200, but
      removes nothing: the review is still there to be found. */
  lemma DeleteByOtherSpellingKeepsReview(reviews: seq<Review>, id: string, caller: Caller)
    requires DeleteReview(reviews, id, caller).Saved? && !IsObjectIdString(id)
    ensures DeleteReview(reviews, id, caller) == Saved(reviews, 200)
    ensures FindReview(DeleteReview(reviews, id, caller).reviews, id) == FindReview(reviews, id)
    ensures FindReview(reviews, id).Some?
  {
  }

  /** A concrete case: a review stored as `…0a` and deleted as `…0A` by its author, next to
      another valid review, is found, kept, and the request answers 200; an update by the
      same spelling does what an update by the stored id does. */
  lemma UppercaseIdDeleteKeepsReview(a: Review, b: Review, caller: Caller, rating: Option<real>,
                                     comment: Option<string>)
    requires a.id == "00000000000000000000000a" && b.id != a.id
    requires OwnerOrAdmin(a.user, caller) && ReviewsValid([a, b])
    ensures FindReview([a, b], "00000000000000000000000A") == Some(0)
    ensures UpdateReview([a, b], "00000000000000000000000A", a.user, rating, comment)
            == UpdateReview([a, b], a.id, a.user, rating, comment)
    ensures DeleteReview([a, b], "00000000000000000000000A", caller) == Saved([a, b], 200)
  {
    var raw := "00000000000000000000000A";
    CastIgnoresCase(a.id, raw);
    ReviewSaveAcceptedIffValid([a, b]);
    assert !IsObjectIdString(raw) by {
      assert !IsLowerHex(raw[23]);
    }
    assert FindReview([a, b], raw) == Some(0);
    RemovalBySpelling([a, b], raw, 0);
  }

  /** Deleting keeps one review per user. */
  lemma DeleteKeepsOneReviewPerUser(reviews: seq<Review>, id: string, caller: Caller)
    requires OneReviewPerUser(reviews)
    requires DeleteReview(reviews, id, caller).Saved?
    ensures OneReviewPerUser(DeleteReview(reviews, id, caller).reviews)
  {
    RemoveKeepsOneReviewPerUser(reviews, id);
  }

  lemma {:induction false} RemoveKeepsOneReviewPerUser(reviews: seq<Review>, id: string)
    requires OneReviewPerUser(reviews)
    ensures OneReviewPerUser(RemoveReview(reviews, id))
  {
    if |reviews| > 0 {
      RemoveKeepsOneReviewPerUser(reviews[1..], id);
      var rest := RemoveReview(reviews[1..], id);
      forall x | x in rest ensures x.user != reviews[0].user {
        RemoveReviewKeeps(reviews[1..], id, x);
      }
    }
  }

  // ---------------------------------------------------------------------------
  // Reviews: the handlers
  // ---------------------------------------------------------------------------

  /** The save that ends a review handler: the reviews, the recomputed ratings and the
      `updatedAt` hook. */
  method SaveReviews(product: Product, reviews: seq<Review>, now: Time)
    modifies product
    ensures product.State() == old(product.State()).(reviews := reviews, ratings := AverageRating(reviews), updatedAt := now)
  {
    product.reviews := reviews;
    product.CalculateAverageRating();
    product.updatedAt := now;
  }

  /** `POST /api/products/:id/reviews`; `product` is the lookup result. */
  method AddProductReview(product: Product?, caller: UserId, rating: Option<real>, comment: Option<string>,
                          id: ReviewId, now: Time) returns (response: Response)
    modifies product
    ensures product == null ==> response == Fail(404, "Product not found")
    ensures product != null ==>
              var outcome := AddReview(old(product.reviews), caller, rating, comment, id, now);
              response == OutcomeResponse(outcome) && product.State() == AfterOutcome(old(product.State()), outcome, now)
  {
    if product == null {
      return Fail(404, "Product not found");
    }
    if exists i :: 0 <= i < |product.reviews| && product.reviews[i].user == caller {
      return Fail(400, "Product already reviewed");
    }
    if rating.None? || comment.None? {
      return Fail(500, "Server Error");
    }
    var added := product.reviews + [Review(id, caller, rating.value, comment.value, now)];
    if !ReviewSaveAccepted(added) {
      return Fail(500, "Server Error");
    }
    SaveReviews(product, added, now);
    response := Ok(201);
  }

  /** `PUT /api/products/:id/reviews/:reviewId`. */
  method UpdateProductReview(product: Product?, id: string, caller: UserId, rating: Option<real>,
                             comment: Option<string>, now: Time) returns (response: Response)
    modifies product
    ensures product == null ==> response == Fail(404, "Product not found")
    ensures product != null ==>
              var outcome := UpdateReview(old(product.reviews), id, caller, rating, comment);
              response == OutcomeResponse(outcome) && product.State() == AfterOutcome(old(product.State()), outcome, now)
  {
    if product == null {
      return Fail(404, "Product not found");
    }
    var found := FindReview(product.reviews, id);
    if found.None? {
      return Fail(404, "Review not found");
    }
    var i := found.value;
    if product.reviews[i].user != caller {
      return Fail(401, "Not authorized to update this review");
    }
    var revised := product.reviews[i := RevisedReview(product.reviews[i], rating, comment)];
    if !ReviewSaveAccepted(revised) {
      return Fail(500, "Server Error");
    }
    SaveReviews(product, revised, now);
    response := Ok(200);
  }

  /** `DELETE /api/products/:id/reviews/:reviewId`. */
  method DeleteProductReview(product: Product?, id: string, caller: Caller, now: Time) returns (response: Response)
    modifies product
    ensures product == null ==> response == Fail(404, "Product not found")
    ensures product != null ==>
              var outcome := DeleteReview(old(product.reviews), id, caller);
              response == OutcomeResponse(outcome) && product.State() == AfterOutcome(old(product.State()), outcome, now)
  {
    if product == null {
      return Fail(404, "Product not found");
    }
    var found := FindReview(product.reviews, id);
    if found.None? {
      return Fail(404, "Review not found");
    }
    if !OwnerOrAdmin(product.reviews[found.value].user, caller) {
      return Fail(401, "Not authorized to delete this review");
    }
    var kept := RemoveReview(product.reviews, id);
    if !ReviewSaveAccepted(kept) {
      return Fail(500, "Server Error");
    }
    SaveReviews(product, kept, now);
    response := Ok(200);
  }
}
