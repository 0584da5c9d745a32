// Product reviews: submitting one review per product and account, editing and deleting
// one's own review, looking up one's review of a product, and a product's review page.
module Reviews {
  import opened Common
  import opened Entities
  import opened Queries

  /** `DanhGiaRequestDTO`. */
  datatype ReviewRequest = ReviewRequest(productId: int, content: Option<string>, score: int)

  /** One review as the read endpoints show it (`DanhGiaResponseDTO`). */
  datatype ReviewView = ReviewView(
    id: int,
    productId: int,
    accountId: int,
    authorName: Option<string>,
    content: Option<string>,
    score: Option<int>,
    reviewedAt: Option<Instant>)

  /** A score the handlers accept: 1 to 5 stars. */
  predicate ValidScore(score: int)
  {
    1 <= score <= 5
  }

  /** The ids of the reviews account `accountId` wrote of product `productId`. */
  function ReviewsBy(reviews: map<int, Review>, productId: int, accountId: int): (ids: set<int>)
    ensures forall k :: k in ids <==> k in reviews && reviews[k].productId == productId && reviews[k].accountId == accountId
  {
    set k | k in reviews && reviews[k].productId == productId && reviews[k].accountId == accountId
  }

  /** No account has reviewed a product twice. */
  predicate OneReviewPerPair(reviews: map<int, Review>)
  {
    forall a, b :: a in reviews && b in reviews && a != b ==>
      reviews[a].productId != reviews[b].productId || reviews[a].accountId != reviews[b].accountId
  }

  // ---------------------------------------------------------------------------
  // Submit
  // ---------------------------------------------------------------------------

  /** The answer to a submission that is refused, if it is refused. */
  function SubmitRejection(db: Tables, accountId: int, req: ReviewRequest): (r: Option<Reply>)
    ensures r.None? <==>
      && accountId in db.accounts && req.productId in db.products && ValidScore(req.score)
      && ReviewsBy(db.reviews, req.productId, accountId) == {}
    ensures r.Some? ==> r.value in {UnauthorizedReply, BadRequest(404), BadRequest(400)}
  {
    if accountId !in db.accounts then Some(UnauthorizedReply)
    else if req.productId !in db.products then Some(BadRequest(404))
    else if !ValidScore(req.score) then Some(BadRequest(400))
    else if ReviewsBy(db.reviews, req.productId, accountId) != {} then Some(BadRequest(400))
    else None
  }

  /** The state after an accepted submission: one new review, dated now. */
  function ReviewSubmitted(db: Tables, accountId: int, req: ReviewRequest, clock: Clock): Tables
  {
    db.(reviews := db.reviews[FreshId(db.reviews.Keys) :=
          Review(req.productId, accountId, req.content, Some(req.score), Some(clock.now))])
  }

  /** `GuiDanhGia`: stores the caller's review of a product unless it is refused; a refusal writes nothing. */
  method SubmitReview(ctx: ShopContext, accountId: int, req: ReviewRequest, clock: Clock) returns (reply: Reply, reviewId: Option<int>)
    modifies ctx
    ensures SubmitRejection(old(ctx.db), accountId, req).Some? ==>
      reply == SubmitRejection(old(ctx.db), accountId, req).value && reviewId.None? && ctx.db == old(ctx.db)
    ensures SubmitRejection(old(ctx.db), accountId, req).None? ==>
      && reply == OkReply && reviewId == Some(FreshId(old(ctx.db).reviews.Keys))
      && ctx.db == ReviewSubmitted(old(ctx.db), accountId, req, clock)
  {
    var db := ctx.db;
    if accountId !in db.accounts {
      return UnauthorizedReply, None;
    }
    if req.productId !in db.products {
      return BadRequest(404), None;
    }
    if req.score < 1 || req.score > 5 {
      return BadRequest(400), None;
    }
    if ReviewsBy(db.reviews, req.productId, accountId) != {} {
      return BadRequest(400), None;
    }
    var id := FreshId(db.reviews.Keys);
    ctx.SaveChanges(db.(reviews := db.reviews[id := Review(req.productId, accountId, req.content, Some(req.score), Some(clock.now))]));
    return OkReply, Some(id);
  }

  /**
   * A submission keeps one review per product and account, the caller's review is then
   * the one just written, and a second submission for the same product is refused.
   */
  lemma SubmitEffects(db: Tables, accountId: int, req: ReviewRequest, clock: Clock)
    requires OneReviewPerPair(db.reviews)
    requires SubmitRejection(db, accountId, req).None?
    ensures var r := ReviewSubmitted(db, accountId, req, clock);
      && OneReviewPerPair(r.reviews)
      && ReviewsBy(r.reviews, req.productId, accountId) == {FreshId(db.reviews.Keys)}
      && SubmitRejection(r, accountId, req) == Some(BadRequest(400))
  {
    var r := ReviewSubmitted(db, accountId, req, clock);
    var id := FreshId(db.reviews.Keys);
    assert id in ReviewsBy(r.reviews, req.productId, accountId);
    forall a, b | a in r.reviews && b in r.reviews && a != b
      ensures r.reviews[a].productId != r.reviews[b].productId || r.reviews[a].accountId != r.reviews[b].accountId
    {
      if a == id {
        assert b !in ReviewsBy(db.reviews, req.productId, accountId);
      } else if b == id {
        assert a !in ReviewsBy(db.reviews, req.productId, accountId);
      }
    }
  }

  // ---------------------------------------------------------------------------
  // Edit and delete
  // ---------------------------------------------------------------------------

  /** Review `id` exists and was written by the account. */
  predicate OwnsReview(db: Tables, id: int, accountId: int)
  {
    id in db.reviews && db.reviews[id].accountId == accountId
  }

  /** The answer to an edit that is refused, if it is refused. */
  function EditRejection(db: Tables, id: int, accountId: int, score: int): (r: Option<Reply>)
    ensures r.None? <==> OwnsReview(db, id, accountId) && ValidScore(score)
  {
    if !OwnsReview(db, id, accountId) then Some(BadRequest(404))
    else if !ValidScore(score) then Some(BadRequest(400))
    else None
  }

  /** The state after an accepted edit: new content and score, dated now. */
  function ReviewEdited(db: Tables, id: int, content: Option<string>, score: int, clock: Clock): Tables
    requires id in db.reviews
  {
    db.(reviews := db.reviews[id := db.reviews[id].(content := content, score := Some(score), reviewedAt := Some(clock.now))])
  }

  /** `ChinhSuaDanhGia`: replaces the content and score of the caller's review and refreshes its date. */
  method EditReview(ctx: ShopContext, id: int, accountId: int, content: Option<string>, score: int, clock: Clock)
    returns (reply: Reply)
    modifies ctx
    ensures EditRejection(old(ctx.db), id, accountId, score).Some? ==>
      reply == EditRejection(old(ctx.db), id, accountId, score).value && ctx.db == old(ctx.db)
    ensures EditRejection(old(ctx.db), id, accountId, score).None? ==>
      reply == OkReply && ctx.db == ReviewEdited(old(ctx.db), id, content, score, clock)
  {
    var db := ctx.db;
    if !OwnsReview(db, id, accountId) {
      return BadRequest(404);
    }
    if score < 1 || score > 5 {
      return BadRequest(400);
    }
    var review := db.reviews[id];
    review := review.(content := content);
    review := review.(score := Some(score));
    review := review.(reviewedAt := Some(clock.now));
    ctx.SaveChanges(db.(reviews := db.reviews[id := review]));
    return OkReply;
  }

  /** `XoaDanhGia`: removes the caller's review; any other id is answered 404 and nothing changes. */
  method DeleteReview(ctx: ShopContext, id: int, accountId: int) returns (reply: Reply)
    modifies ctx
    ensures !OwnsReview(old(ctx.db), id, accountId) ==> reply == BadRequest(404) && ctx.db == old(ctx.db)
    ensures OwnsReview(old(ctx.db), id, accountId) ==>
      reply == OkReply && ctx.db == old(ctx.db).(reviews := old(ctx.db).reviews - {id})
  {
    var db := ctx.db;
    if !OwnsReview(db, id, accountId) {
      return BadRequest(404);
    }
    ctx.SaveChanges(db.(reviews := db.reviews - {id}));
    return OkReply;
  }

  /**
   * Edits and deletes keep one review per product and account; an edit keeps the
   * review's product and author, and after a delete the author may review the product
   * again.
   */
  lemma EditAndDeleteEffects(db: Tables, id: int, accountId: int, content: Option<string>, score: int, clock: Clock)
    requires OneReviewPerPair(db.reviews) && OwnsReview(db, id, accountId)
    ensures var e := ReviewEdited(db, id, content, score, clock);
      && OneReviewPerPair(e.reviews)
      && e.reviews[id].productId == db.reviews[id].productId && e.reviews[id].accountId == accountId
    ensures var d := db.(reviews := db.reviews - {id});
      && OneReviewPerPair(d.reviews)
      && ReviewsBy(d.reviews, db.reviews[id].productId, accountId) == {}
  {
    var d := db.(reviews := db.reviews - {id});
    var productId := db.reviews[id].productId;
    forall k | k in ReviewsBy(db.reviews, productId, accountId)
      ensures k == id
    {
    }
    assert ReviewsBy(d.reviews, productId, accountId) == ReviewsBy(db.reviews, productId, accountId) - {id};
  }

  // ---------------------------------------------------------------------------
  // Reads
  // ---------------------------------------------------------------------------

  function ViewOf(db: Tables, id: int): ReviewView
    requires id in db.reviews
  {
    var r := db.reviews[id];
    ReviewView(id, r.productId, r.accountId,
               if r.accountId in db.accounts then db.accounts[r.accountId].name else None,
               r.content, r.score, r.reviewedAt)
  }

  /** `KiemTraDanhGia`: the caller's review of the product, or nothing when there is none. */
  function CheckReview(db: Tables, productId: int, accountId: int): (r: Option<ReviewView>)
    ensures r.None? <==> ReviewsBy(db.reviews, productId, accountId) == {}
    ensures r.Some? ==> r.value.id in db.reviews && r.value.productId == productId && r.value.accountId == accountId
  {
    var ids := ReviewsBy(db.reviews, productId, accountId);
    if ids == {} then None else Some(ViewOf(db, MinOf(ids)))
  }

  /** After an accepted submission, the check finds the review just submitted. */
  lemma CheckFindsSubmitted(db: Tables, accountId: int, req: ReviewRequest, clock: Clock)
    requires OneReviewPerPair(db.reviews)
    requires SubmitRejection(db, accountId, req).None?
    ensures var v := CheckReview(ReviewSubmitted(db, accountId, req, clock), req.productId, accountId);
      v.Some? && v.value.id == FreshId(db.reviews.Keys) && v.value.score == Some(req.score) && v.value.content == req.content
  {
    SubmitEffects(db, accountId, req, clock);
  }

  /** The ids of the reviews of a product. */
  function ReviewsOf(reviews: map<int, Review>, productId: int): (ids: set<int>)
    ensures forall k :: k in ids <==> k in reviews && reviews[k].productId == productId
  {
    set k | k in reviews && reviews[k].productId == productId
  }

  /**
   * `GetDanhGiaBySanPham`: the count of all the product's reviews, and the requested
   * page of them (as review ids), newest first; 400 when the database refuses the page.
   */
  function ProductReviews(reviews: map<int, Review>, productId: int, page: int, pageSize: int)
    : (r: (Reply, int, seq<int>))
    ensures PageRefused(page, pageSize) ==> r == (BadRequest(400), 0, [])
    ensures !PageRefused(page, pageSize) ==> r.0 == OkReply && r.1 == |ReviewsOf(reviews, productId)|
    ensures |r.2| <= Max(pageSize, 0)
    ensures forall k :: k in r.2 ==> k in reviews && reviews[k].productId == productId
    ensures OrderedBy(r.2, ReviewedAt(reviews), true)
    ensures !PageRefused(page, pageSize) ==>
      Some(r.2) == Page(SortByDate(SortedIds(ReviewsOf(reviews, productId)), ReviewedAt(reviews), true), page, pageSize)
  {
    var ids := SortedIds(ReviewsOf(reviews, productId));
    match PageByDate(ids, ReviewedAt(reviews), true, page, pageSize)
    case None => (BadRequest(400), 0, [])
    case Some(rows) => (OkReply, |ReviewsOf(reviews, productId)|, rows)
  }
}
